/** File uploads: the loop that walks and creates the upload folder, and the substitution in the filename mask. */
module Upload {
  import opened Wrappers
  import opened Php

  // ---------------------------------------------------------------- folders

  /** A folder by its path of names below the root of a storage. */
  type Path = seq<string>

  function Step(folder: Path, name: string): Path {
    if name == "" then folder else folder + [name]
  }

  /** The last folder that walking the names leads to; an empty name stays where it is. */
  function Walk(from: Path, names: seq<string>): Path
    decreases |names|
  {
    if names == [] then from else Walk(Step(from, names[0]), names[1..])
  }

  /** The non-empty names. */
  function NonEmpty(names: seq<string>): seq<string> {
    if names == [] then [] else Step([], names[0]) + NonEmpty(names[1..])
  }

  lemma {:induction false} WalkIsPath(from: Path, names: seq<string>)
    ensures Walk(from, names) == from + NonEmpty(names)
    decreases |names|
  {
    if names != [] {
      WalkIsPath(Step(from, names[0]), names[1..]);
      assert Step(from, names[0]) + NonEmpty(names[1..]) == from + (Step([], names[0]) + NonEmpty(names[1..]));
    } else {
      assert from + [] == from;
    }
  }

  /** All prefixes of a path, the path included. */
  function PrefixesOf(path: Path): (r: set<Path>)
    ensures forall p :: p in r <==> p <= path
  {
    var r := set i | 0 <= i <= |path| :: path[..i];
    assert forall p :: p <= path ==> p == path[..|p|];
    r
  }

  /** A tree has its root, and with a folder every folder above it. */
  ghost predicate IsTree(folders: set<Path>) {
    [] in folders && forall p :: p in folders && p != [] ==> p[..|p| - 1] in folders
  }

  lemma {:induction false} TreeHasPrefixes(folders: set<Path>, path: Path, prefix: Path)
    requires IsTree(folders) && path in folders && prefix <= path
    ensures prefix in folders
    decreases |path|
  {
    if prefix != path {
      TreeHasPrefixes(folders, path[..|path| - 1], prefix);
    } else {
      assert prefix == path;
    }
  }

  lemma {:induction false} PrefixesExist(folders: set<Path>, path: Path)
    requires IsTree(folders) && path in folders
    ensures folders + PrefixesOf(path) == folders
  {
    forall p | p in PrefixesOf(path)
      ensures p in folders
    {
      TreeHasPrefixes(folders, path, p);
    }
  }

  lemma {:induction false} GrowTree(folders: set<Path>, parent: Path, name: string)
    requires IsTree(folders) && parent in folders
    ensures IsTree(folders + {parent + [name]})
  {
  }

  /** `array_shift`: the first name and the others; an empty array gives null, which names the current folder. */
  function Shift(names: seq<string>): (string, seq<string>) {
    if names == [] then ("", []) else (names[0], names[1..])
  }

  /** The loop stands in `current`, the names `path` are still ahead, and what it has passed exists. */
  ghost predicate Entered(before: set<Path>, folders: set<Path>, current: Path, path: seq<string>, target: Path) {
    && current + NonEmpty(path) == target
    && folders == before + PrefixesOf(current)
    && IsTree(folders)
    && current in folders
  }

  lemma {:induction false} NothingEntered(before: set<Path>, names: seq<string>)
    requires IsTree(before)
    ensures Entered(before, before, [], names, NonEmpty(names))
  {
  }

  lemma {:induction false} EnterStep(before: set<Path>, folders: set<Path>, current: Path, path: seq<string>,
                                     target: Path)
    requires Entered(before, folders, current, path, target)
    requires var next := Step(current, Shift(path).0); IsTree(folders + {next})
    ensures var next := Step(current, Shift(path).0); Entered(before, folders + {next}, next, Shift(path).1, target)
  {
    StepPrefixes(current, Shift(path).0);
    var next := Step(current, Shift(path).0);
    assert before + PrefixesOf(current) + {next} == before + PrefixesOf(next);
    StepMovesAhead(current, path);
  }

  lemma {:induction false} StepMovesAhead(current: Path, path: seq<string>)
    ensures Step(current, Shift(path).0) + NonEmpty(Shift(path).1) == current + NonEmpty(path)
  {}

  lemma {:induction false} StepPrefixes(folder: Path, name: string)
    ensures PrefixesOf(Step(folder, name)) == PrefixesOf(folder) + {Step(folder, name)}
  {
    var next := Step(folder, name);
    forall p | p in PrefixesOf(next)
      ensures p in PrefixesOf(folder) + {next}
    {
      assert p <= next;
      if |p| <= |folder| {
        assert p <= folder;
      } else {
        assert p == next;
      }
    }
    assert folder <= next;
  }

  /** What follows the first colon of a combined identifier; all of it when there is no colon. */
  function ObjectIdentifier(identifier: string): string {
    if ':' !in identifier then identifier
    else if identifier[0] == ':' then identifier[1..]
    else ObjectIdentifier(identifier[1..])
  }

  /** The folder that a combined identifier such as `1:/a/b` addresses. */
  function Addressed(identifier: string): Path {
    Walk([], Explode('/', ObjectIdentifier(identifier)))
  }

  /** The folder that the loop walks to: it drops whatever precedes the first slash. */
  function Created(identifier: string): Path {
    NonEmpty(Explode('/', identifier)[1..])
  }

  lemma {:induction false} ObjectAfterStorage(storage: string, path: string)
    requires ':' !in storage && '/' !in storage
    ensures ObjectIdentifier(storage + ":" + path) == path
    ensures Explode('/', storage + ":" + path)[1..] == Explode('/', path)[1..]
  {
    var identifier := storage + ":" + path;
    if storage == "" {
      assert identifier == ":" + path;
    } else {
      assert identifier[0] == storage[0] && identifier[|storage|] == ':';
      assert identifier[1..] == storage[1..] + ":" + path;
      ObjectAfterStorage(storage[1..], path);
    }
  }

  /** The loop walks to the addressed folder exactly when the object identifier is empty or starts with a slash. */
  lemma {:induction false} CreatedIsAddressed(storage: string, path: string)
    requires ':' !in storage && '/' !in storage
    ensures var identifier := storage + ":" + path;
      Created(identifier) == Addressed(identifier) <==> path == "" || path[0] == '/'
  {
    ObjectAfterStorage(storage, path);
    var names := Explode('/', path);
    WalkIsPath([], names);
    assert [] + NonEmpty(names) == NonEmpty(names);
    assert names[0] == "" <==> path == "" || path[0] == '/';
    assert NonEmpty(names) == Step([], names[0]) + NonEmpty(names[1..]);
    assert names[0] != "" ==> |NonEmpty(names)| == 1 + |NonEmpty(names[1..])|;
  }

  lemma {:induction false} OneName(storage: string, name: string)
    requires ':' !in storage && '/' !in storage && name != "" && '/' !in name
    ensures Addressed(storage + ":" + name) == [name] && Created(storage + ":" + name) == []
  {
    hide Explode;
    ObjectAfterStorage(storage, name);
    ImplodeExplode('/', name);
    var names := Explode('/', name);
    assert names == [name] && names[1..] == [];
    WalkIsPath([], names);
  }

  /** For `1:user_upload` the folder looked up is user_upload, and the loop stays at the root. */
  lemma {:induction false} FolderWithoutSlash()
    ensures Addressed("1:user_upload") == ["user_upload"] && Created("1:user_upload") == []
  {
    hide Addressed, Created;
    OneName("1", "user_upload");
    assert "1" + ":" + "user_upload" == "1:user_upload";
  }

  class ResourceStorage {
    var folders: set<Path>

    constructor ()
      ensures folders == {[]} && IsTree(folders)
    {
      folders := {[]};
    }

    predicate HasFolder(name: string)
      reads this
    {
      Step([], name) in folders
    }

    predicate HasFolderInFolder(name: string, folder: Path)
      reads this
    {
      Step(folder, name) in folders
    }

    /** Creates a folder in the parent, or in the root when there is none. */
    method CreateFolder(name: string, parent: Option<Path>) returns (folder: Path)
      requires IsTree(folders) && parent.GetOr([]) in folders && name != ""
      modifies this
      ensures folder == parent.GetOr([]) + [name]
      ensures folders == old(folders) + {folder} && IsTree(folders)
    {
      folder := parent.GetOr([]) + [name];
      GrowTree(folders, parent.GetOr([]), name);
      folders := folders + {folder};
    }

    /** One turn of the loop: enters the named folder, and creates it first if it is missing. */
    method EnterFolder(name: string, parent: Option<Path>) returns (folder: Path)
      requires IsTree(folders) && parent.GetOr([]) in folders
      modifies this
      ensures folder == Step(parent.GetOr([]), name)
      ensures folders == old(folders) + {folder} && IsTree(folders)
    {
      if parent.Some? && HasFolderInFolder(name, parent.value) {
        folder := Step(parent.value, name);
      } else if parent.None? && HasFolder(name) {
        folder := Step([], name);
      } else {
        folder := CreateFolder(name, parent);
      }
    }

    /** Walks down the names and ends at exactly that path; of its prefixes, only the missing ones are new. */
    method EnterPath(names: seq<string>) returns (folder: Path)
      requires IsTree(folders)
      modifies this
      ensures folder == NonEmpty(names)
      ensures folders == old(folders) + PrefixesOf(folder) && IsTree(folders)
    {
      NothingEntered(folders, names);
      var path := names;
      var uploadFolder: Option<Path> := None;
      var again := true;
      while again
        invariant Entered(old(folders), folders, uploadFolder.GetOr([]), path, NonEmpty(names))
        invariant !again ==> path == [] && uploadFolder.Some?
        decreases |path|, again
      {
        ghost var before, current, rest := folders, uploadFolder.GetOr([]), path;
        var directoryName := Shift(path).0;
        path := Shift(path).1;
        var entered := EnterFolder(directoryName, uploadFolder);
        EnterStep(old(folders), before, current, rest, NonEmpty(names));
        uploadFolder := Some(entered);
        again := |path| > 0;
      }
      folder := uploadFolder.value;
      assert folder + NonEmpty([]) == folder;
    }

    /** The addressed folder when there is one; otherwise the folder that the loop walks to and creates. */
    method GetUploadFolder(identifier: string) returns (folder: Path)
      requires IsTree(folders)
      modifies this
      ensures folder == if Addressed(identifier) in old(folders) then Addressed(identifier) else Created(identifier)
      ensures folders == old(folders) + PrefixesOf(folder) && IsTree(folders)
    {
      if Addressed(identifier) in folders {
        PrefixesExist(folders, Addressed(identifier));
        return Addressed(identifier);
      }
      folder := EnterPath(Explode('/', identifier)[1..]);
    }

    /**
     For `storage:/path`: the folder at exactly that path is returned, it and all its parents exist,
     every other folder is untouched, and asking again creates nothing and returns the same folder.
     */
    method GetUploadFolderTwice(storage: string, path: string) returns (first: Path, second: Path)
      requires IsTree(folders) && ':' !in storage && '/' !in storage
      modifies this
      ensures first == second == NonEmpty(Explode('/', path))
      ensures folders == old(folders) + PrefixesOf(first)
    {
      var identifier := storage + ":" + ("/" + path);
      CreatedIsAddressed(storage, "/" + path);
      ObjectAfterStorage(storage, "/" + path);
      assert ("/" + path)[1..] == path;
      first := GetUploadFolder(identifier);
      assert first in PrefixesOf(first);
      PrefixesExist(folders, first);
      second := GetUploadFolder(identifier);
    }
  }

  // ---------------------------------------------------------------- filename masks

  predicate IsTokenChar(c: char) {
    'A' <= c <= 'Z' || 'a' <= c <= 'z' || '0' <= c <= '9' || c == '_' || c == ':'
  }

  /** The name of a token: `[A-Za-z0-9_:]+`. */
  predicate IsName(name: string) {
    name != "" && forall i :: 0 <= i < |name| ==> IsTokenChar(name[i])
  }

  function TokenText(name: string): string {
    "[" + name + "]"
  }

  predicate StartsWithToken(s: string, name: string, tail: string) {
    IsName(name) && s == TokenText(name) + tail
  }

  /** The longest prefix of token characters, and the rest. */
  function SpanToken(s: string): (r: (string, string))
    ensures s == r.0 + r.1
    ensures forall i :: 0 <= i < |r.0| ==> IsTokenChar(r.0[i])
  {
    if s == "" || !IsTokenChar(s[0]) then ("", s)
    else
      var (name, rest) := SpanToken(s[1..]);
      ([s[0]] + name, rest)
  }

  lemma {:induction false} SpanTokenExact(name: string, rest: string)
    requires forall i :: 0 <= i < |name| ==> IsTokenChar(name[i])
    requires rest != "" && !IsTokenChar(rest[0])
    ensures SpanToken(name + rest) == (name, rest)
  {
    if name != "" {
      assert (name + rest)[1..] == name[1..] + rest;
      SpanTokenExact(name[1..], rest);
      assert [name[0]] + name[1..] == name;
    } else {
      assert name + rest == rest;
    }
  }

  /** The match of the pattern at the start of a text: the name, and what follows the token. */
  function TokenAt(s: string): (r: Option<(string, string)>)
    ensures r.Some? ==> StartsWithToken(s, r.value.0, r.value.1) && |r.value.1| < |s|
  {
    if s == "" || s[0] != '[' then None
    else
      var (name, rest) := SpanToken(s[1..]);
      if name == "" || rest == "" || rest[0] != ']' then None
      else
        assert s == "[" + (name + rest) && rest == "]" + rest[1..];
        Some((name, rest[1..]))
  }

  lemma {:induction false} TokenAtExact(s: string, name: string, tail: string)
    requires StartsWithToken(s, name, tail)
    ensures TokenAt(s) == Some((name, tail))
  {
    assert s[1..] == name + ("]" + tail);
    SpanTokenExact(name, "]" + tail);
    assert ("]" + tail)[1..] == tail;
  }

  /** `preg_replace_callback`: matches are searched from left to right, and scanning goes on after a match. */
  function Replace(mask: string, replacements: map<string, string>): Result<string>
    decreases |mask|
  {
    if mask == "" then Success("")
    else
      match TokenAt(mask)
      case None =>
        var rest :- Replace(mask[1..], replacements);
        Success([mask[0]] + rest)
      case Some((name, tail)) =>
        if name !in replacements then Failure("Undefined array key")
        else
          var rest :- Replace(tail, replacements);
          Success(replacements[name] + rest)
  }

  // ------------------------------------------------ an independent reading of a mask

  datatype Piece = Literal(c: char) | Token(name: string) {
    function Text(): string {
      if Literal? then [c] else TokenText(name)
    }

    function Replaced(replacements: map<string, string>): string {
      if Literal? then [c] else if name in replacements then replacements[name] else ""
    }
  }

  function Unparse(pieces: seq<Piece>): string {
    if pieces == [] then "" else pieces[0].Text() + Unparse(pieces[1..])
  }

  /** The pieces spell the mask, and no literal stands at the start of a token. */
  ghost predicate IsDivision(pieces: seq<Piece>, mask: string) {
    Unparse(pieces) == mask && WellDivided(pieces)
  }

  ghost predicate WellDivided(pieces: seq<Piece>) {
    pieces != [] ==>
      && WellDivided(pieces[1..])
      && (match pieces[0]
          case Literal(_) => forall name, tail :: !StartsWithToken(Unparse(pieces), name, tail)
          case Token(name) => IsName(name))
  }

  /** Each piece is replaced once; replacement texts are not read again. */
  function Render(pieces: seq<Piece>, replacements: map<string, string>): string {
    if pieces == [] then "" else pieces[0].Replaced(replacements) + Render(pieces[1..], replacements)
  }

  predicate Defined(pieces: seq<Piece>, replacements: map<string, string>) {
    forall p :: p in pieces && p.Token? ==> p.name in replacements
  }

  /** What the scan sees at the start of a divided mask is its first piece. */
  lemma {:induction false} FirstPiece(pieces: seq<Piece>)
    requires pieces != [] && WellDivided(pieces)
    ensures pieces[0].Literal? ==> TokenAt(Unparse(pieces)) == None
    ensures pieces[0].Literal? ==> Unparse(pieces) == [pieces[0].c] + Unparse(pieces[1..])
    ensures pieces[0].Token? ==> TokenAt(Unparse(pieces)) == Some((pieces[0].name, Unparse(pieces[1..])))
    ensures Unparse(pieces) != "" && WellDivided(pieces[1..])
  {
    var mask := Unparse(pieces);
    if pieces[0].Token? {
      assert StartsWithToken(mask, pieces[0].name, Unparse(pieces[1..]));
      TokenAtExact(mask, pieces[0].name, Unparse(pieces[1..]));
    }
  }

  /** Every mask has a division. */
  lemma {:induction false} Divide(mask: string) returns (pieces: seq<Piece>)
    ensures IsDivision(pieces, mask)
    decreases |mask|
  {
    if mask == "" {
      return [];
    }
    match TokenAt(mask)
    case None =>
      var rest := Divide(mask[1..]);
      pieces := [Literal(mask[0])] + rest;
      assert pieces[1..] == rest && Unparse(pieces) == mask;
      forall name, tail
        ensures !StartsWithToken(mask, name, tail)
      {
        if StartsWithToken(mask, name, tail) {
          TokenAtExact(mask, name, tail);
        }
      }
    case Some((name, tail)) =>
      var rest := Divide(tail);
      pieces := [Token(name)] + rest;
      assert pieces[1..] == rest && Unparse(pieces) == mask;
  }

  /** And only one. */
  lemma {:induction false} DivisionUnique(p: seq<Piece>, q: seq<Piece>, mask: string)
    requires IsDivision(p, mask) && IsDivision(q, mask)
    ensures p == q
    decreases |p|
  {
    assert Unparse([]) == "";
    hide WellDivided, Unparse, TokenAt;
    if p != [] && q != [] {
      FirstPiece(p);
      FirstPiece(q);
      DivisionUnique(p[1..], q[1..], Unparse(p[1..]));
      assert p == [p[0]] + p[1..] && q == [q[0]] + q[1..];
    } else if p != [] {
      FirstPiece(p);
    } else if q != [] {
      FirstPiece(q);
    }
  }

  /** The scan replaces each piece of the mask's division once, and fails exactly when a token has no replacement. */
  lemma {:induction false} ReplaceMeaning(pieces: seq<Piece>, mask: string, replacements: map<string, string>)
    requires IsDivision(pieces, mask)
    ensures Replace(mask, replacements).Success? <==> Defined(pieces, replacements)
    ensures Defined(pieces, replacements) ==> Replace(mask, replacements).value == Render(pieces, replacements)
    decreases |pieces|
  {
    if pieces != [] {
      FirstPiece(pieces);
      ReplaceMeaning(pieces[1..], Unparse(pieces[1..]), replacements);
      assert Defined(pieces, replacements) <==>
        (pieces[0].Token? ==> pieces[0].name in replacements) && Defined(pieces[1..], replacements);
    }
  }

  // ---------------------------------------------------------------- file names

  function TrimSlashes(path: string): string {
    if path != "" && path[|path| - 1] == '/' then TrimSlashes(path[..|path| - 1]) else path
  }

  /** The index of the last occurrence, or -1. */
  function LastIndexOf(c: char, s: string): (i: int)
    ensures -1 <= i < |s|
    ensures i >= 0 ==> s[i] == c
    ensures forall j :: i < j < |s| ==> s[j] != c
  {
    if s == "" then -1
    else if s[|s| - 1] == c then |s| - 1
    else LastIndexOf(c, s[..|s| - 1])
  }

  /** `basename`: the last component, trailing slashes ignored. */
  function Basename(path: string): (name: string)
    ensures '/' !in name
    ensures '/' !in path ==> name == path
  {
    var trimmed := TrimSlashes(path);
    trimmed[LastIndexOf('/', trimmed) + 1..]
  }

  /** `PATHINFO_FILENAME` */
  function FilenameOf(path: string): string {
    var base := Basename(path);
    var dot := LastIndexOf('.', base);
    if dot < 0 then base else base[..dot]
  }

  /** `PATHINFO_EXTENSION` */
  function ExtensionOf(path: string): string {
    var base := Basename(path);
    var dot := LastIndexOf('.', base);
    if dot < 0 then "" else base[dot + 1..]
  }

  function ExtensionWithDot(path: string): string {
    if ExtensionOf(path) == "" then "" else "." + ExtensionOf(path)
  }

  function NameReplacements(name: string): map<string, string> {
    map["filename" := FilenameOf(name), "extension" := ExtensionOf(name), "extensionWithDot" := ExtensionWithDot(name)]
  }

  /** A hash is only computed when the mask asks for it. */
  function AddHash(replacements: map<string, string>, mask: string, key: string, hash: string): map<string, string> {
    if Contains(mask, TokenText(key)) then replacements[key := hash] else replacements
  }

  function Replacements(name: string, mask: string, contentHash: string, filenameHash: string): map<string, string> {
    AddHash(AddHash(NameReplacements(name), mask, "contentHash", contentHash), mask, "filenameHash", filenameHash)
  }

  /** Every supported token with its text. */
  function Supported(name: string, contentHash: string, filenameHash: string): map<string, string> {
    NameReplacements(name)["contentHash" := contentHash]["filenameHash" := filenameHash]
  }

  lemma {:induction false} HashKeys(name: string)
    ensures "contentHash" != "filenameHash"
    ensures "contentHash" !in NameReplacements(name) && "filenameHash" !in NameReplacements(name)
  {
  }

  lemma {:induction false} ContainedBehind(front: string, s: string, part: string)
    requires Contains(s, part)
    ensures Contains(front + s, part)
  {
    var i :| 0 <= i <= |s| && part <= s[i..];
    assert (front + s)[|front| + i..] == s[i..];
  }

  lemma {:induction false} ContainedAtStart(part: string, s: string)
    ensures Contains(part + s, part)
  {
    assert part <= (part + s)[0..];
  }

  lemma {:induction false} TokenIsContained(pieces: seq<Piece>, name: string)
    requires Token(name) in pieces
    ensures Contains(Unparse(pieces), TokenText(name))
  {
    hide Contains;
    if pieces[0] == Token(name) {
      ContainedAtStart(TokenText(name), Unparse(pieces[1..]));
    } else {
      TokenIsContained(pieces[1..], name);
      ContainedBehind(pieces[0].Text(), Unparse(pieces[1..]), TokenText(name));
    }
  }

  /** A hash left out because the mask does not ask for it is never missed. */
  lemma {:induction false} LeftOutIsNotMet(pieces: seq<Piece>, replacements: map<string, string>, mask: string,
                                           key: string, hash: string)
    requires IsDivision(pieces, mask) && key !in replacements
    ensures Defined(pieces, AddHash(replacements, mask, key, hash)) <==> Defined(pieces, replacements[key := hash])
    ensures Render(pieces, AddHash(replacements, mask, key, hash)) == Render(pieces, replacements[key := hash])
  {
    if Token(key) in pieces {
      TokenIsContained(pieces, key);
    } else {
      UnusedKey(pieces, replacements, key, hash);
    }
  }

  lemma {:induction false} NothingToDefine(replacements: map<string, string>)
    ensures Defined([], replacements)
  {}

  lemma {:induction false} DefinedSplit(pieces: seq<Piece>, replacements: map<string, string>)
    requires pieces != []
    ensures Defined(pieces, replacements) <==>
      (pieces[0].Token? ==> pieces[0].name in replacements) && Defined(pieces[1..], replacements)
  {}

  lemma {:induction false} UnusedKey(pieces: seq<Piece>, replacements: map<string, string>, key: string, text: string)
    requires Token(key) !in pieces
    ensures Defined(pieces, replacements) <==> Defined(pieces, replacements[key := text])
    ensures Render(pieces, replacements) == Render(pieces, replacements[key := text])
  {
    hide Defined;
    if pieces == [] {
      NothingToDefine(replacements);
      NothingToDefine(replacements[key := text]);
    } else {
      UnusedKey(pieces[1..], replacements, key, text);
      DefinedSplit(pieces, replacements);
      DefinedSplit(pieces, replacements[key := text]);
      assert pieces[0] in pieces;
    }
  }

  /** The filename of an upload; `Failure` where a token has no replacement. */
  method GetFilename(name: string, mask: string, contentHash: string, filenameHash: string)
      returns (filename: Result<string>)
    ensures filename == FilenameFor(name, mask, contentHash, filenameHash)
  {
    var replacements := NameReplacements(name);
    if Contains(mask, TokenText("contentHash")) {
      replacements := replacements["contentHash" := contentHash];
    }
    if Contains(mask, TokenText("filenameHash")) {
      replacements := replacements["filenameHash" := filenameHash];
    }
    filename := Replace(mask, replacements);
  }

  function FilenameFor(name: string, mask: string, contentHash: string, filenameHash: string): Result<string> {
    Replace(mask, Replacements(name, mask, contentHash, filenameHash))
  }

  /** Every supported token is replaced by its text, every other piece kept; an unsupported token fails. */
  lemma {:induction false} FilenameMeaning(pieces: seq<Piece>, mask: string, name: string, contentHash: string,
                                           filenameHash: string)
    requires IsDivision(pieces, mask)
    ensures var all := Supported(name, contentHash, filenameHash);
      var filename := FilenameFor(name, mask, contentHash, filenameHash);
      && (filename.Success? <==> Defined(pieces, all))
      && (Defined(pieces, all) ==> filename.value == Render(pieces, all))
  {
    HashKeys(name);
    AddTwoHashes(pieces, NameReplacements(name), mask, "contentHash", contentHash, "filenameHash", filenameHash);
    ReplaceMeaning(pieces, mask, Replacements(name, mask, contentHash, filenameHash));
  }

  lemma {:induction false} AddTwoHashes(pieces: seq<Piece>, base: map<string, string>, mask: string, k1: string,
                                        h1: string, k2: string, h2: string)
    requires IsDivision(pieces, mask) && k1 !in base && k2 !in base && k1 != k2
    ensures var some := AddHash(AddHash(base, mask, k1, h1), mask, k2, h2);
      var all := base[k1 := h1][k2 := h2];
      (Defined(pieces, some) <==> Defined(pieces, all)) && Render(pieces, some) == Render(pieces, all)
  {
    hide Defined, Render, IsDivision;
    LeftOutIsNotMet(pieces, AddHash(base, mask, k1, h1), mask, k2, h2);
    assert base[k1 := h1][k2 := h2] == base[k2 := h2][k1 := h1];
    if !Contains(mask, TokenText(k1)) {
      LeftOutIsNotMet(pieces, base[k2 := h2], mask, k1, h1);
    }
  }

  /** `[filename][extensionWithDot]` */
  const DEFAULT_MASK := TokenText("filename") + TokenText("extensionWithDot")

  lemma {:induction false} TwoTokens(a: string, b: string, replacements: map<string, string>)
    requires IsName(a) && IsName(b) && a in replacements && b in replacements
    ensures IsDivision([Token(a), Token(b)], TokenText(a) + TokenText(b))
    ensures Defined([Token(a), Token(b)], replacements)
    ensures Render([Token(a), Token(b)], replacements) == replacements[a] + replacements[b]
  {
    var both := [Token(a), Token(b)];
    assert both[1..] == [Token(b)] && both[1..][1..] == [];
    assert WellDivided(both[1..][1..]);
    assert Unparse(both[1..]) == TokenText(b) + "" == TokenText(b);
    assert Render(both[1..], replacements) == replacements[b] + "" == replacements[b];
  }

  lemma {:induction false} DefaultMaskTokens()
    ensures IsName("filename") && IsName("extensionWithDot")
  {
  }

  lemma {:induction false} DefaultMaskFilename(name: string, contentHash: string, filenameHash: string)
    ensures FilenameFor(name, DEFAULT_MASK, contentHash, filenameHash)
      == Success(FilenameOf(name) + ExtensionWithDot(name))
  {
    var all := Supported(name, contentHash, filenameHash);
    DefaultMaskTokens();
    HashKeys(name);
    assert all["filename"] == FilenameOf(name) && all["extensionWithDot"] == ExtensionWithDot(name);
    hide Supported, Render, Defined, FilenameFor, IsName;
    TwoTokens("filename", "extensionWithDot", all);
    FilenameMeaning([Token("filename"), Token("extensionWithDot")], DEFAULT_MASK, name, contentHash, filenameHash);
  }

  /** Under the default mask an upload keeps its name exactly when that has no slash and does not end in a dot. */
  lemma {:induction false} DefaultMaskKeepsName(name: string, contentHash: string, filenameHash: string)
    ensures FilenameFor(name, DEFAULT_MASK, contentHash, filenameHash) == Success(name)
      <==> '/' !in name && (name == "" || name[|name| - 1] != '.')
  {
    hide *;
    DefaultMaskFilename(name, contentHash, filenameHash);
    NameParts(name);
  }

  /** A name splits at its last dot. */
  lemma {:induction false} NameSplits(name: string)
    ensures var base := Basename(name);
      && '.' !in ExtensionOf(name)
      && base == if '.' in base then FilenameOf(name) + "." + ExtensionOf(name) else FilenameOf(name)
  {
    var base := Basename(name);
    var dot := LastIndexOf('.', base);
    if dot >= 0 {
      assert base == base[..dot] + "." + base[dot + 1..];
    }
  }

  lemma {:induction false} NameParts(name: string)
    ensures var base := Basename(name);
      FilenameOf(name) + ExtensionWithDot(name) ==
        if base != "" && base[|base| - 1] == '.' then base[..|base| - 1] else base
  {
    var base := Basename(name);
    var dot := LastIndexOf('.', base);
    if dot >= 0 {
      assert base[..dot] + ("." + base[dot + 1..]) == base;
      assert base[..dot] + "" == base[..dot];
      assert dot == |base| - 1 <==> base[dot + 1..] == "";
    }
  }
}
