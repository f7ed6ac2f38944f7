/** The path-prefix rules of the facade: how the configured prefix is stored
    (`setPathPrefix`), how a virtual path becomes a bucket key
    (`applyPathPrefix`), how a key becomes a path again (`removePathPrefix`),
    what counts as a directory marker (`isOnlyDir`) and which prefix a
    directory listing asks for (`listObjects`).
    Each rule is a function of the stored prefix value; the facade class
    passes its `prefix` field. */
module Paths {
  import opened Php

  /** The characters the prefix rules strip: backslash and slash. */
  const Separators: set<char> := {'\\', '/'}

  /** The prefix as it takes part in string concatenation and `strlen`. */
  function PrefixText(prefix: Value): (t: string)
  {
    ToStr(prefix)
  }

  /** A prefix as `setPathPrefix` leaves it: null, or a string ending in
      exactly one '/' (the character before it, if any, is no separator). */
  predicate IsNormalized(prefix: Value)
  {
    || prefix == Null
    || (&& prefix.Str? && |prefix.s| > 0 && prefix.s[|prefix.s| - 1] == '/'
        && (|prefix.s| == 1 || prefix.s[|prefix.s| - 2] !in Separators))
  }

  /** The value `setPathPrefix($p)` stores: null when `(string)$p` is "",
      otherwise `(string)$p` without its trailing separators, then one '/'
      (characterised by `NormalizeSpec`). */
  function NormalizePrefix(p: Value): (r: Value)
    ensures r == Null <==> ToStr(p) == []
  {
    var text := ToStr(p);
    if text == [] then Null else Str(RTrim(text, Separators) + "/")
  }

  /** `applyPathPrefix($path)`: the prefix followed by `path` without its
      leading separators (characterised by `ApplySpec`). */
  function Apply(prefix: Value, path: string): (r: string)
    ensures |r| <= |PrefixText(prefix)| + |path|
  {
    PrefixText(prefix) + LTrim(path, Separators)
  }

  /** `removePathPrefix($key)`: `key` without its first `strlen(prefix)`
      characters; "" when the key is no longer than that. */
  function Remove(prefix: Value, key: string): (r: string)
    ensures |r| == if |PrefixText(prefix)| <= |key| then |key| - |PrefixText(prefix)| else 0
    ensures r == key[|key| - |r|..]
  {
    Substr(key, |PrefixText(prefix)|)
  }

  /** `isOnlyDir($path)`: `substr($path, -1) === '/'`. */
  predicate IsOnlyDir(path: string)
  {
    |path| > 0 && path[|path| - 1] == '/'
  }

  /** The `Prefix` parameter `listObjects($directory)` sends:
      `ltrim(applyPathPrefix(rtrim($directory, '/') . '/'), '/')`. */
  function ListPrefix(prefix: Value, directory: string): (r: string)
  {
    LTrim(Apply(prefix, RTrim(directory, {'/'}) + "/"), {'/'})
  }

  // ---------------------------------------------------------------------------
  // setPathPrefix

  /** The stored prefix is null exactly when `(string)$p` is "". Otherwise it
      ends in exactly one '/'; the part before that '/' is a prefix of the
      input (so leading separators are kept), and everything of the input
      after that part is a separator. */
  lemma NormalizeSpec(p: Value)
    ensures var r := NormalizePrefix(p);
      && IsNormalized(r)
      && (r == Null <==> ToStr(p) == [])
      && (r != Null ==>
            var stem := r.s[..|r.s| - 1];
            && stem <= ToStr(p)
            && (stem == [] || stem[|stem| - 1] !in Separators)
            && forall k :: |stem| <= k < |ToStr(p)| ==> ToStr(p)[k] in Separators)
  {
    var text := ToStr(p);
    if text != [] {
      RTrimSpec(text, Separators);
      var stem := RTrim(text, Separators);
      assert NormalizePrefix(p).s[..|NormalizePrefix(p).s| - 1] == stem;
    }
  }

  /** Storing the prefix that `getPathPrefix` returns leaves it unchanged:
      normalisation is idempotent. */
  lemma NormalizeIdempotent(p: Value)
    ensures NormalizePrefix(NormalizePrefix(p)) == NormalizePrefix(p)
  {
    NormalizeSpec(p);
    NormalizedIsFixed(NormalizePrefix(p));
  }


  /** A prefix already in normal form is stored as it is. */
  lemma {:induction false} NormalizedIsFixed(p: Value)
    requires IsNormalized(p)
    ensures NormalizePrefix(p) == p
  {
    if p.Str? {
      var stem := p.s[..|p.s| - 1];
      assert p.s == stem + "/";
      assert stem == [] || stem[|stem| - 1] !in Separators;
      RTrimNoop(stem, Separators);
      assert RTrim(p.s, Separators) == RTrim(stem, Separators);
    }
  }

  /** The normalisation keeps the input's leading separators and its inner
      separators, strips and replaces its trailing ones, and maps every
      empty-casting value to null. */
  lemma NormalizeExamples()
    ensures NormalizePrefix(Str("a/b")) == Str("a/b/")
    ensures NormalizePrefix(Str("/a/b/")) == Str("/a/b/")
    ensures NormalizePrefix(Str("a\\/\\")) == Str("a/")
    ensures NormalizePrefix(Str("//")) == Str("/")
    ensures NormalizePrefix(Str("")) == Null
    ensures NormalizePrefix(Null) == Null
    ensures NormalizePrefix(Bool(false)) == Null
  {
    assert RTrim("a/b", Separators) == "a/b";
    assert RTrim("/a/b/", Separators) == "/a/b";
    assert "a\\/\\"[..3] == "a\\/" && "a\\/"[..2] == "a\\" && "a\\"[..1] == "a";
    assert RTrim("a", Separators) == "a";
    assert RTrim("a\\/\\", Separators) == "a";
    assert RTrim("//", Separators) == "";
  }

  // ---------------------------------------------------------------------------
  // applyPathPrefix and removePathPrefix

  /** Every key starts with the stored prefix; the part after it is `path`
      less some leading separators, and does not itself start with one. */
  lemma ApplySpec(prefix: Value, path: string)
    ensures var r := Apply(prefix, path);
      var t := PrefixText(prefix);
      && t <= r
      && var rest := r[|t|..];
      && rest == path[|path| - |rest|..]
      && (rest == [] || rest[0] !in Separators)
      && forall k :: 0 <= k < |path| - |rest| ==> path[k] in Separators
  {
    LTrimSpec(path, Separators);
    var t := PrefixText(prefix);
    assert (t + LTrim(path, Separators))[|t|..] == LTrim(path, Separators);
  }

  /** Removing the prefix from a key the facade built gives back the path the
      caller passed, less its leading separators. */
  lemma RemoveApply(prefix: Value, path: string)
    ensures Remove(prefix, Apply(prefix, path)) == LTrim(path, Separators)
  {
    var t := PrefixText(prefix);
    assert (t + LTrim(path, Separators))[|t|..] == LTrim(path, Separators);
  }

  /** Applying the prefix to `removePathPrefix(key)` rebuilds `key` exactly
      when `key` starts with the prefix and the rest does not start with a
      separator, that is, exactly for the keys `applyPathPrefix` can produce. */
  lemma {:induction false} ApplyRemove(prefix: Value, key: string)
    ensures Apply(prefix, Remove(prefix, key)) == key <==>
      (PrefixText(prefix) <= key &&
       (|key| == |PrefixText(prefix)| || key[|PrefixText(prefix)|] !in Separators))
  {
    var t := PrefixText(prefix);
    ApplySpec(prefix, Remove(prefix, key));
    if t <= key && (|key| == |t| || key[|t|] !in Separators) {
      var rest := key[|t|..];
      assert Remove(prefix, key) == rest;
      LTrimNoop(rest, Separators);
      assert t + rest == key;
    }
  }

  /** Every key the facade builds starts with the stored prefix, and a key
      built from a path equals the key built from that path's trimmed form. */
  lemma ApplyKeepsPrefix(prefix: Value, path: string)
    ensures PrefixText(prefix) <= Apply(prefix, path)
    ensures Apply(prefix, LTrim(path, Separators)) == Apply(prefix, path)
  {
    LTrimSpec(path, Separators);
    LTrimNoop(LTrim(path, Separators), Separators);
  }

  // ---------------------------------------------------------------------------
  // createDir, deleteDir and isOnlyDir

  /** `createDir($dirname)` uploads to `$dirname . '/'`, which is always a
      directory marker. */
  lemma {:induction false} MarkerPaths(dirname: string)
    ensures IsOnlyDir(dirname + "/")
  {
    assert (dirname + "/")[|dirname|] == '/';
  }

  /** The prefix `deleteDir($dirname)` deletes under,
      `applyPathPrefix($dirname) . '/'`, is the key `createDir($dirname)`
      writes its marker to exactly when `dirname` is not made of separators
      only. (For "" or "/" deleteDir targets `prefix . '/'` while createDir
      writes the bare prefix.) */
  lemma {:induction false} DeleteDirMatchesCreateDir(prefix: Value, dirname: string)
    ensures (Apply(prefix, dirname) + "/" == Apply(prefix, dirname + "/")) <==>
            LTrim(dirname, Separators) != []
  {
    var t := PrefixText(prefix);
    LTrimAppend(dirname, "/", Separators);
    if LTrim(dirname, Separators) == [] {
      assert LTrim("/", Separators) == LTrim("", Separators);
      assert Apply(prefix, dirname + "/") == t + [];
      assert |Apply(prefix, dirname) + "/"| == |t| + 1;
    } else {
      assert Apply(prefix, dirname) + "/" == t + (LTrim(dirname, Separators) + "/");
    }
  }

  // ---------------------------------------------------------------------------
  // listObjects

  /** When the stored prefix does not start with '/' (in particular when it
      was set from a value without leading separators) the listing prefix is
      the key `applyPathPrefix` gives the directory with one trailing '/'. */
  lemma ListPrefixAgreesWithApply(prefix: Value, directory: string)
    requires PrefixText(prefix) == [] || PrefixText(prefix)[0] != '/'
    ensures ListPrefix(prefix, directory) == Apply(prefix, RTrim(directory, {'/'}) + "/")
  {
    var a := Apply(prefix, RTrim(directory, {'/'}) + "/");
    LTrimSpec(RTrim(directory, {'/'}) + "/", Separators);
    LTrimNoop(a, {'/'});
  }

  /** The listing prefix never starts with '/'. Under a normalised prefix it
      is either "" (the whole bucket) or a directory: it ends in '/'. */
  lemma {:induction false} ListPrefixIsDirectory(prefix: Value, directory: string)
    ensures var r := ListPrefix(prefix, directory); r == [] || r[0] != '/'
    ensures IsNormalized(prefix) ==> var r := ListPrefix(prefix, directory); r == [] || r[|r| - 1] == '/'
  {
    var d := RTrim(directory, {'/'});
    var a := Apply(prefix, d + "/");
    LTrimSpec(a, {'/'});
    if IsNormalized(prefix) {
      LTrimAppend(d, "/", Separators);
      assert LTrim("/", Separators) == [];
      var x := LTrim(d + "/", Separators);
      assert x == [] || x[|x| - 1] == '/';
      assert a == PrefixText(prefix) + x;
      assert a == [] || a[|a| - 1] == '/';
      LTrimKeepsLast(a, {'/'});
    }
  }


  /** A key the backend returns for a listing starts with the listing prefix;
      removing the facade prefix from it leaves the directory (trimmed, with
      one trailing '/') followed by the rest of the key. Listed keys are
      relative to the facade prefix, not to the listed directory. */
  lemma ListedKeyRelative(prefix: Value, directory: string, rest: string)
    requires PrefixText(prefix) == [] || PrefixText(prefix)[0] != '/'
    ensures Remove(prefix, ListPrefix(prefix, directory) + rest) ==
            LTrim(RTrim(directory, {'/'}) + "/", Separators) + rest
  {
    ListPrefixAgreesWithApply(prefix, directory);
    var d := LTrim(RTrim(directory, {'/'}) + "/", Separators);
    RemoveAfterPrefix(prefix, d, rest);
  }

  /** Removing the prefix from the prefix text followed by `u` and then
      `rest` gives `u` followed by `rest`. */
  lemma RemoveAfterPrefix(prefix: Value, u: string, rest: string)
    ensures Remove(prefix, (PrefixText(prefix) + u) + rest) == u + rest
  {
    var t := PrefixText(prefix);
    assert (t + u) + rest == t + (u + rest);
    assert (t + (u + rest))[|t|..] == u + rest;
  }

  /** With a stored prefix that starts with '/', no non-empty listing prefix
      is a prefix of any key the facade writes: such a listing can never
      return an object the facade stored. */
  lemma ListPrefixMissesWrittenKeys(prefix: Value, directory: string, path: string)
    requires PrefixText(prefix) != [] && PrefixText(prefix)[0] == '/'
    ensures var l := ListPrefix(prefix, directory); l != [] ==> !(l <= Apply(prefix, path))
  {
    ListPrefixIsDirectory(prefix, directory);
  }

  /** The exception to `ListPrefixMissesWrittenKeys`: under the stored prefix
      "/" (from `setPathPrefix('/')`), listing "" asks for the empty prefix,
      which matches every key the facade writes. */
  lemma RootPrefixListsEverything(path: string)
    ensures ListPrefix(Str("/"), "") == []
    ensures ListPrefix(Str("/"), "") <= Apply(Str("/"), path)
  {
    assert RTrim("", {'/'}) == "";
    assert LTrim("/", Separators) == "";
    assert Apply(Str("/"), "/") == "/";
    assert LTrim("/", {'/'}) == "";
  }

  /** With a stored prefix that starts with '/', the listing asks for a
      prefix without that '/', while the keys the facade writes keep it. */
  lemma ListPrefixDropsLeadingSlash()
    ensures ListPrefix(Str("/a/"), "x") == "a/x/"
    ensures Apply(Str("/a/"), "x/y") == "/a/x/y"
  {
    var dir := RTrim("x", {'/'}) + "/";
    assert RTrim("x", {'/'}) == "x";
    assert dir == "x/";
    assert LTrim(dir, Separators) == dir by { LTrimNoop(dir, Separators); }
    var a := Apply(Str("/a/"), dir);
    assert a == "/a/" + "x/";
    assert a[1..] == "a/x/";
    assert LTrim(a[1..], {'/'}) == "a/x/" by { LTrimNoop(a[1..], {'/'}); }
    assert LTrim("x/y", Separators) == "x/y" by { LTrimNoop("x/y", Separators); }
  }

}
