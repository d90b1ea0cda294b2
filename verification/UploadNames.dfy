/** The folder and the filename of an upload, in terms of the names that identifier, file name and mask are made of. */
module UploadNames {
  import opened Wrappers
  import opened Php
  import opened Upload

  // ---------------------------------------------------------------- folders

  predicate IsFolderName(name: string) {
    name != "" && '/' !in name
  }

  lemma {:induction false} NonEmptyNames(names: seq<string>)
    requires forall i :: 0 <= i < |names| ==> names[i] != ""
    ensures NonEmpty(names) == names
  {
    if names != [] {
      NonEmptyNames(names[1..]);
      assert [] + [names[0]] + names[1..] == names;
    }
  }

  /** `storage:/a/b` addresses the folder b in the folder a, which is also the folder that is created. */
  lemma {:induction false} FolderOfNames(storage: string, names: seq<string>)
    requires ':' !in storage && '/' !in storage
    requires forall i :: 0 <= i < |names| ==> IsFolderName(names[i])
    ensures Addressed(storage + ":" + ("/" + Implode("/", names))) == names
    ensures Created(storage + ":" + ("/" + Implode("/", names))) == names
  {
    var path := Implode("/", names);
    CreatedIsAddressed(storage, "/" + path);
    ObjectAfterStorage(storage, "/" + path);
    assert ("/" + path)[1..] == path;
    assert Explode('/', "/" + path)[1..] == Explode('/', path);
    NonEmptyNames(names);
    if names == [] {
      assert Explode('/', path) == [""] && [""][1..] == [] && NonEmpty([]) == [];
    } else {
      ExplodeImplode('/', names);
    }
  }

  // ---------------------------------------------------------------- file names

  predicate AllSlashes(s: string) {
    forall i :: 0 <= i < |s| ==> s[i] == '/'
  }

  lemma {:induction false} TrimmedSlashes(s: string, slashes: string)
    requires AllSlashes(slashes) && (s != "" ==> s[|s| - 1] != '/')
    ensures TrimSlashes(s + slashes) == s
  {
    if slashes == "" {
      assert s + slashes == s;
    } else {
      var n := |slashes| - 1;
      assert (s + slashes)[..|s + slashes| - 1] == s + slashes[..n];
      TrimmedSlashes(s, slashes[..n]);
    }
  }

  lemma {:induction false} LastIndexIs(c: char, front: string, back: string)
    requires c !in back
    ensures LastIndexOf(c, front + [c] + back) == |front|
    ensures LastIndexOf(c, back) == -1
  {
    hide LastIndexOf;
    var s, n := front + [c] + back, |front| + 1;
    assert s[|front|] == c;
    forall j | n <= j < |s|
      ensures s[j] != c
    {
      assert s[j] == back[j - n] && back[j - n] in back;
    }
    assert forall j :: 0 <= j < |back| ==> back[j] in back;
  }

  /** The base name is the last name of a path, whatever slashes follow it. */
  lemma {:induction false} BasenameIs(folders: string, base: string, slashes: string)
    requires folders == "" || folders[|folders| - 1] == '/'
    requires base != "" && '/' !in base && AllSlashes(slashes)
    ensures Basename(folders + base + slashes) == base
  {
    var path := folders + base;
    assert base[|base| - 1] in base;
    TrimmedSlashes(path, slashes);
    if folders == "" {
      LastIndexIs('/', "", base);
      assert path == base && base[0..] == base;
    } else {
      var front := folders[..|folders| - 1];
      LastIndexIs('/', front, base);
      assert path == front + ['/'] + base;
    }
  }

  /** A base name with a dot: what precedes its last dot, and what follows it. */
  lemma {:induction false} PartsOf(path: string, stem: string, extension: string)
    requires Basename(path) == stem + ['.'] + extension && '.' !in extension
    ensures FilenameOf(path) == stem && ExtensionOf(path) == extension
    ensures ExtensionWithDot(path) == if extension == "" then "" else "." + extension
  {
    LastIndexIs('.', stem, extension);
    hide LastIndexOf, Basename;
    assert (stem + ['.'] + extension)[..|stem|] == stem;
    assert (stem + ['.'] + extension)[|stem| + 1..] == extension;
  }

  lemma {:induction false} NoExtension(path: string)
    requires '.' !in Basename(path)
    ensures FilenameOf(path) == Basename(path) && ExtensionOf(path) == "" && ExtensionWithDot(path) == ""
  {
    LastIndexIs('.', "", Basename(path));
  }

  // ---------------------------------------------------------------- masks

  lemma {:induction false} OneToken(a: string)
    requires IsName(a)
    ensures IsDivision([Token(a)], TokenText(a))
  {
    var one := [Token(a)];
    assert one[1..] == [] && WellDivided(one[1..]);
    assert Unparse(one) == TokenText(a) + "" == TokenText(a);
  }

  lemma {:induction false} OneTokenRendered(a: string, replacements: map<string, string>)
    ensures Defined([Token(a)], replacements) <==> a in replacements
    ensures a in replacements ==> Render([Token(a)], replacements) == replacements[a]
  {
    var one := [Token(a)];
    assert one[0] == Token(a) && one[1..] == [];
    if a in replacements {
      assert Render(one, replacements) == replacements[a] + "" == replacements[a];
    }
  }

  lemma {:induction false} NotToken(s: string, c: char, name: string, tail: string)
    requires c != '['
    ensures !StartsWithToken([c] + s, name, tail)
  {
    assert ([c] + s)[0] == c && (TokenText(name) + tail)[0] == '[';
  }

  lemma {:induction false} TokensAround(a: string, c: char, b: string, replacements: map<string, string>)
    requires IsName(a) && IsName(b) && c != '[' && a in replacements && b in replacements
    ensures IsDivision([Token(a), Literal(c), Token(b)], TokenText(a) + [c] + TokenText(b))
    ensures Defined([Token(a), Literal(c), Token(b)], replacements)
    ensures Render([Token(a), Literal(c), Token(b)], replacements) == replacements[a] + [c] + replacements[b]
  {
    var all, two, one := [Token(a), Literal(c), Token(b)], [Literal(c), Token(b)], [Token(b)];
    assert all[1..] == two && two[1..] == one;
    OneToken(b);
    OneTokenRendered(b, replacements);
    hide IsName, Defined;
    assert Unparse(two) == [c] + TokenText(b);
    assert WellDivided(two) by {
      forall name, tail
        ensures !StartsWithToken(Unparse(two), name, tail)
      {
        NotToken(TokenText(b), c, name, tail);
      }
    }
    assert Unparse(all) == TokenText(a) + ([c] + TokenText(b)) == TokenText(a) + [c] + TokenText(b);
    assert Render(two, replacements) == [c] + replacements[b];
    assert Render(all, replacements) == replacements[a] + ([c] + replacements[b]);
    DefinedSplit(all, replacements);
    DefinedSplit(two, replacements);
  }

  /** A mask of one token yields its text, or fails when there is none. */
  lemma {:induction false} TokenReplaced(name: string, token: string, contentHash: string, filenameHash: string)
    requires IsName(token)
    ensures var filename := FilenameFor(name, TokenText(token), contentHash, filenameHash);
      var all := Supported(name, contentHash, filenameHash);
      if token in all then filename == Success(all[token]) else filename.Failure?
  {
    OneToken(token);
    OneTokenRendered(token, Supported(name, contentHash, filenameHash));
    hide Supported, FilenameFor, IsName, Defined, Render, IsDivision;
    FilenameMeaning([Token(token)], TokenText(token), name, contentHash, filenameHash);
  }

  lemma {:induction false} SupportedTexts(name: string, contentHash: string, filenameHash: string)
    ensures var all := Supported(name, contentHash, filenameHash);
      && all.Keys == {"filename", "extension", "extensionWithDot", "contentHash", "filenameHash"}
      && all["filename"] == FilenameOf(name) && all["extension"] == ExtensionOf(name)
      && all["extensionWithDot"] == ExtensionWithDot(name)
      && all["contentHash"] == contentHash && all["filenameHash"] == filenameHash
  {
    hide FilenameOf, ExtensionOf, ExtensionWithDot;
    HashKeys(name);
  }

  lemma {:induction false} TokenNames()
    ensures IsName("filename") && IsName("extension") && IsName("extensionWithDot")
    ensures IsName("contentHash") && IsName("filenameHash")
  {
  }

  /**
   For a file `stem.extension`, split at the last dot, the masks of one token give the stem, the extension,
   the extension with its dot unless it is empty, and the hashes.
   */
  lemma {:induction false} TokenTexts(name: string, stem: string, extension: string, contentHash: string,
                                      filenameHash: string)
    requires Basename(name) == stem + ['.'] + extension && '.' !in extension
    ensures FilenameFor(name, TokenText("filename"), contentHash, filenameHash) == Success(stem)
    ensures FilenameFor(name, TokenText("extension"), contentHash, filenameHash) == Success(extension)
    ensures FilenameFor(name, TokenText("extensionWithDot"), contentHash, filenameHash) ==
            Success(if extension == "" then "" else "." + extension)
    ensures FilenameFor(name, TokenText("contentHash"), contentHash, filenameHash) == Success(contentHash)
    ensures FilenameFor(name, TokenText("filenameHash"), contentHash, filenameHash) == Success(filenameHash)
  {
    hide FilenameFor, Basename, TokenText, IsName, FilenameOf, ExtensionOf, ExtensionWithDot, Supported;
    TokenNames();
    PartsOf(name, stem, extension);
    SupportedTexts(name, contentHash, filenameHash);
    TokenReplaced(name, "filename", contentHash, filenameHash);
    TokenReplaced(name, "extension", contentHash, filenameHash);
    TokenReplaced(name, "extensionWithDot", contentHash, filenameHash);
    TokenReplaced(name, "contentHash", contentHash, filenameHash);
    TokenReplaced(name, "filenameHash", contentHash, filenameHash);
  }

  /** Any other token has no text. */
  lemma {:induction false} UnknownTokenFails(name: string, token: string, contentHash: string, filenameHash: string)
    requires IsName(token)
    requires token !in {"filename", "extension", "extensionWithDot", "contentHash", "filenameHash"}
    ensures FilenameFor(name, TokenText(token), contentHash, filenameHash).Failure?
  {
    hide FilenameFor, TokenText, IsName, Supported;
    SupportedTexts(name, contentHash, filenameHash);
    TokenReplaced(name, token, contentHash, filenameHash);
  }

  const PLAIN_MASK := "[filename].[extension]"

  /** `[filename].[extension]` gives back the base name of a file that has a dot. */
  lemma {:induction false} PlainMask(name: string, stem: string, extension: string, contentHash: string,
                                     filenameHash: string)
    requires Basename(name) == stem + ['.'] + extension && '.' !in extension
    ensures FilenameFor(name, PLAIN_MASK, contentHash, filenameHash) == Success(stem + "." + extension)
  {
    var all := Supported(name, contentHash, filenameHash);
    assert PLAIN_MASK == TokenText("filename") + ['.'] + TokenText("extension");
    hide FilenameFor, Basename, TokenText, IsName, FilenameOf, ExtensionOf, ExtensionWithDot, Supported, Render,
      Defined;
    TokenNames();
    PartsOf(name, stem, extension);
    SupportedTexts(name, contentHash, filenameHash);
    TokensAround("filename", '.', "extension", all);
    FilenameMeaning([Token("filename"), Literal('.'), Token("extension")], PLAIN_MASK, name, contentHash, filenameHash);
  }
}
