/**
 The keys of a full-text parameter name the placeholders of its texts, by their integer cast. Texts whose
 keys have the same cast displace one another, so the order of the keys can decide which ones are searched.
 */
module TextKeys {
  import opened Php
  import opened IdLookups

  type Entry = (string, string)

  function Cast(e: Entry): int {
    IntCast(e.0)
  }

  ghost predicate Reordered(entries: seq<Entry>, entries': seq<Entry>) {
    multiset(entries) == multiset(entries')
  }

  lemma {:induction false} ReorderedMembers(entries: seq<Entry>, entries': seq<Entry>, e: Entry)
    requires Reordered(entries, entries')
    ensures e in entries <==> e in entries'
  {
    assert e in entries <==> e in multiset(entries);
    assert e in entries' <==> e in multiset(entries');
  }

  /** No later entry has the same cast. */
  ghost predicate IsLast(entries: seq<Entry>, i: nat) {
    i < |entries| && forall j :: i < j < |entries| ==> Cast(entries[j]) != Cast(entries[i])
  }

  /** A placeholder is bound to the text of its last entry. */
  lemma {:induction false} BindsLast(entries: seq<Entry>, k: int) returns (i: nat)
    requires k in Binds(entries)
    ensures IsLast(entries, i) && Cast(entries[i]) == k && Binds(entries)[k] == entries[i].1
  {
    hide IntCast;
    var n := |entries| - 1;
    if Cast(entries[n]) == k {
      i := n;
    } else {
      i := BindsLast(entries[..n], k);
    }
  }

  lemma {:induction false} LastIsBound(entries: seq<Entry>, i: nat)
    requires IsLast(entries, i)
    ensures Cast(entries[i]) in Binds(entries) && Binds(entries)[Cast(entries[i])] == entries[i].1
  {
    assert entries[i] in entries;
    var j := BindsLast(entries, Cast(entries[i]));
    assert !(i < j) && !(j < i);
  }

  lemma {:induction false} TextIsLast(entries: seq<Entry>, text: string) returns (i: nat)
    requires text in Texts(entries)
    ensures IsLast(entries, i) && entries[i].1 == text
  {
    var k :| k in Binds(entries) && Binds(entries)[k] == text;
    i := BindsLast(entries, k);
  }

  // ---------------------------------------------------------------- the order that puts an entry last, or first

  function MovedLast(entries: seq<Entry>, i: nat): seq<Entry>
    requires i < |entries|
  {
    entries[..i] + entries[i + 1..] + [entries[i]]
  }

  lemma {:induction false} MovedLastReorders(entries: seq<Entry>, i: nat)
    requires i < |entries|
    ensures Reordered(entries, MovedLast(entries, i))
    ensures Cast(entries[i]) in Binds(MovedLast(entries, i))
    ensures Binds(MovedLast(entries, i))[Cast(entries[i])] == entries[i].1
  {
    assert entries == entries[..i] + [entries[i]] + entries[i + 1..];
    LastIsBound(MovedLast(entries, i), |entries| - 1);
  }

  function Having(entries: seq<Entry>, text: string, have: bool): (r: seq<Entry>)
    ensures forall e :: e in r <==> e in entries && (e.1 == text <==> have)
  {
    if entries == [] then []
    else (if entries[0].1 == text <==> have then [entries[0]] else []) + Having(entries[1..], text, have)
  }

  function TextFirst(entries: seq<Entry>, text: string): seq<Entry> {
    Having(entries, text, true) + Having(entries, text, false)
  }

  lemma {:induction false} TextFirstReorders(entries: seq<Entry>, text: string)
    ensures Reordered(entries, TextFirst(entries, text))
  {
    if entries != [] {
      TextFirstReorders(entries[1..], text);
      assert entries == [entries[0]] + entries[1..];
    }
  }

  // ---------------------------------------------------------------- when the order does not matter

  /** Keys with the same cast have the same text. */
  ghost predicate NoCollision(entries: seq<Entry>) {
    forall a, b :: a in entries && b in entries && Cast(a) == Cast(b) ==> a.1 == b.1
  }

  ghost predicate SameBinds(entries: seq<Entry>) {
    forall entries' :: Reordered(entries, entries') ==> Binds(entries') == Binds(entries)
  }

  lemma {:induction false} BindsKept(entries: seq<Entry>, entries': seq<Entry>)
    requires NoCollision(entries) && Reordered(entries, entries')
    ensures Binds(entries') == Binds(entries)
  {
    forall e
      ensures e in entries <==> e in entries'
    {
      ReorderedMembers(entries, entries', e);
    }
    forall k | k in Binds(entries)
      ensures k in Binds(entries') && Binds(entries')[k] == Binds(entries)[k]
    {
      var i := BindsLast(entries, k);
      var j := BindsLast(entries', k);
      assert entries[i] in entries && entries'[j] in entries;
    }
  }

  /** The texts bound to the placeholders are the same for every order exactly when no two collide. */
  lemma {:induction false} SameBindsIff(entries: seq<Entry>)
    ensures SameBinds(entries) <==> NoCollision(entries)
  {
    hide IntCast;
    if NoCollision(entries) {
      forall entries' | Reordered(entries, entries')
        ensures Binds(entries') == Binds(entries)
      {
        BindsKept(entries, entries');
      }
    }
    if SameBinds(entries) {
      forall a, b | a in entries && b in entries && Cast(a) == Cast(b)
        ensures a.1 == b.1
      {
        var i :| 0 <= i < |entries| && entries[i] == a;
        var j :| 0 <= j < |entries| && entries[j] == b;
        MovedLastReorders(entries, i);
        MovedLastReorders(entries, j);
      }
    }
  }

  /** Some key has the text, and every key with the same cast has it too. */
  ghost predicate Undisplaced(entries: seq<Entry>, text: string) {
    exists a :: a in entries && a.1 == text && forall b :: b in entries && Cast(b) == Cast(a) ==> b.1 == text
  }

  /** Every text is asked for under some cast of its own. */
  ghost predicate AllUndisplaced(entries: seq<Entry>) {
    forall e :: e in entries ==> Undisplaced(entries, e.1)
  }

  ghost predicate SameTexts(entries: seq<Entry>) {
    forall entries' :: Reordered(entries, entries') ==> Texts(entries') == Texts(entries)
  }

  lemma {:induction false} UndisplacedIsSearched(entries: seq<Entry>, text: string)
    requires Undisplaced(entries, text)
    ensures text in Texts(entries)
  {
    var a :| a in entries && a.1 == text && forall b :: b in entries && Cast(b) == Cast(a) ==> b.1 == text;
    var i := BindsLast(entries, Cast(a));
    assert entries[i] in entries && Binds(entries)[Cast(a)] == text;
  }

  lemma {:induction false} IndexBehind(front: seq<Entry>, rest: seq<Entry>, b: Entry) returns (j: nat)
    requires b in rest
    ensures |front| <= j < |front + rest| && (front + rest)[j] == b
  {
    var i :| 0 <= i < |rest| && rest[i] == b;
    j := |front| + i;
  }

  /** In the order that puts a text first, its last key has a cast that no other text has. */
  lemma {:induction false} LastOfFirst(entries: seq<Entry>, text: string, i: nat, b: Entry)
    requires IsLast(TextFirst(entries, text), i) && TextFirst(entries, text)[i].1 == text
    requires b in entries && Cast(b) == Cast(TextFirst(entries, text)[i])
    ensures b.1 == text
  {
    hide Cast;
    var front, rest := Having(entries, text, true), Having(entries, text, false);
    if i < |front| && b in rest {
      var j := IndexBehind(front, rest, b);
    }
  }

  lemma {:induction false} DisplacedWhenFirst(entries: seq<Entry>, text: string)
    requires !Undisplaced(entries, text)
    ensures text !in Texts(TextFirst(entries, text))
  {
    hide Cast, Texts, IsLast;
    var first := TextFirst(entries, text);
    if text in Texts(first) {
      var i := TextIsLast(first, text);
      TextFirstReorders(entries, text);
      LastIndex(first, i);
      ReorderedMembers(entries, first, first[i]);
      forall b | b in entries && Cast(b) == Cast(first[i])
        ensures b.1 == text
      {
        LastOfFirst(entries, text, i, b);
      }
    }
  }

  lemma {:induction false} LastIndex(entries: seq<Entry>, i: nat)
    requires IsLast(entries, i)
    ensures i < |entries| && entries[i] in entries
  {
  }

  lemma {:induction false} SearchedIsAsked(entries: seq<Entry>, text: string)
    requires text in Texts(entries)
    ensures exists e :: e in entries && e.1 == text
  {
    var i := TextIsLast(entries, text);
    assert entries[i] in entries;
  }

  lemma {:induction false} UndisplacedReordered(entries: seq<Entry>, entries': seq<Entry>, text: string)
    requires Reordered(entries, entries') && Undisplaced(entries, text)
    ensures Undisplaced(entries', text)
  {
    forall e
      ensures e in entries <==> e in entries'
    {
      ReorderedMembers(entries, entries', e);
    }
  }

  lemma {:induction false} AllSearched(entries: seq<Entry>, entries': seq<Entry>)
    requires AllUndisplaced(entries) && Reordered(entries, entries')
    ensures Texts(entries') == Texts(entries)
  {
    hide Texts, Undisplaced;
    forall text
      ensures text in Texts(entries) <==> text in Texts(entries')
    {
      if text in Texts(entries) {
        SearchedIsAsked(entries, text);
      }
      if text in Texts(entries') {
        SearchedIsAsked(entries', text);
        var e :| e in entries' && e.1 == text;
        ReorderedMembers(entries, entries', e);
      }
      if Undisplaced(entries, text) {
        UndisplacedIsSearched(entries, text);
        UndisplacedReordered(entries, entries', text);
        UndisplacedIsSearched(entries', text);
      }
    }
  }

  /** The texts searched are the same for every order of the keys exactly when each is asked for undisplaced. */
  lemma {:induction false} SameTextsIff(entries: seq<Entry>)
    ensures SameTexts(entries) <==> AllUndisplaced(entries)
  {
    if AllUndisplaced(entries) {
      forall entries' | Reordered(entries, entries')
        ensures Texts(entries') == Texts(entries)
      {
        AllSearched(entries, entries');
      }
    }
    if SameTexts(entries) {
      hide Texts, Undisplaced;
      forall e | e in entries
        ensures Undisplaced(entries, e.1)
      {
        if !Undisplaced(entries, e.1) {
          SearchedInSomeOrder(entries, e);
          TextFirstReorders(entries, e.1);
          DisplacedWhenFirst(entries, e.1);
        }
      }
    }
  }

  lemma {:induction false} SearchedInSomeOrder(entries: seq<Entry>, e: Entry)
    requires e in entries
    ensures exists entries' :: Reordered(entries, entries') && e.1 in Texts(entries')
  {
    var i :| 0 <= i < |entries| && entries[i] == e;
    MovedLastReorders(entries, i);
    assert e.1 in Texts(MovedLast(entries, i));
  }

  // ---------------------------------------------------------------- examples

  lemma {:induction false} LetterCasts()
    ensures IntCast("a") == 0 && IntCast("b") == 0
  {
  }

  lemma {:induction false} DigitCasts()
    ensures IntCast("1") == 1 && IntCast("2") == 2
  {
    IntCastDecimal(1);
    IntCastDecimal(2);
    assert Decimal(1) == "1" && Decimal(2) == "2";
  }

  /** Of two texts under keys with the same cast the second alone is searched. */
  lemma {:induction false} SecondDisplaces(a: Entry, b: Entry)
    requires Cast(a) == Cast(b)
    ensures Texts([a, b]) == {b.1}
  {
    hide IntCast;
    assert [a, b][..1] == [a] && [a][..0] == [];
    assert Binds([a]) == map[Cast(a) := a.1];
    assert Binds([a, b]) == map[Cast(b) := b.1];
    assert Cast(b) in Binds([a, b]);
  }

  /** `title[a]=foo&title[b]=bar` searches for bar alone, and for foo alone in the other order. */
  lemma {:induction false} LaterDisplaces()
    ensures Texts([("a", "foo"), ("b", "bar")]) == {"bar"}
    ensures Texts([("b", "bar"), ("a", "foo")]) == {"foo"}
  {
    LetterCasts();
    hide IntCast, Texts;
    SecondDisplaces(("a", "foo"), ("b", "bar"));
    SecondDisplaces(("b", "bar"), ("a", "foo"));
  }

  lemma {:induction false} EachAgain(a: Entry, b: Entry, c: Entry, d: Entry)
    requires Cast(a) == Cast(b) && a.1 != b.1 && c.1 == a.1 && d.1 == b.1
    requires Cast(a) != Cast(c) && Cast(c) != Cast(d) && Cast(d) != Cast(a)
    ensures !NoCollision([a, b, c, d]) && AllUndisplaced([a, b, c, d])
  {
    hide Cast;
    var entries := [a, b, c, d];
    assert entries[0] in entries && entries[1] in entries && entries[2] in entries && entries[3] in entries;
    assert Undisplaced(entries, c.1) && Undisplaced(entries, d.1);
  }

  /** Keys that collide may leave the texts searched the same: each text has a key of its own besides. */
  lemma {:induction false} CollidingButUndisplaced(entries: seq<Entry>)
    requires entries == [("a", "foo"), ("b", "bar"), ("1", "foo"), ("2", "bar")]
    ensures !NoCollision(entries) && AllUndisplaced(entries)
  {
    LetterCasts();
    DigitCasts();
    var a, b, c, d := entries[0], entries[1], entries[2], entries[3];
    assert a.1[0] != b.1[0];
    EachAgain(a, b, c, d);
    assert entries == [a, b, c, d];
  }
}
