/**
 * Models of the few Go standard-library string functions the storages use:
 * strings.Split with a one-character separator, strings.TrimPrefix and
 * path.Base. Each is stated as Go documents it. HasPrefix is the predicate
 * TrimPrefix is defined by.
 */
module PathStrings {

  predicate HasPrefix(s: string, prefix: string)
  {
    |prefix| <= |s| && s[..|prefix|] == prefix
  }

  /** strings.TrimPrefix: drops `prefix` once when `s` starts with it. */
  function TrimPrefix(s: string, prefix: string): (r: string)
    ensures HasPrefix(s, prefix) ==> prefix + r == s
    ensures !HasPrefix(s, prefix) ==> r == s
  {
    if HasPrefix(s, prefix) then s[|prefix|..] else s
  }

  /**
   * strings.Split(s, [sep]): the pieces of `s` between the occurrences of `sep`.
   * There is always at least one piece, and no piece contains `sep`.
   */
  function Split(s: string, sep: char): (parts: seq<string>)
    ensures |parts| >= 1
    ensures forall i :: 0 <= i < |parts| ==> sep !in parts[i]
    decreases |s|
  {
    if |s| == 0 then [""]
    else
      var rest := Split(s[1..], sep);
      if s[0] == sep then [""] + rest
      else [[s[0]] + rest[0]] + rest[1..]
  }

  /** strings.Join(parts, [sep]), the inverse of Split. */
  function Join(parts: seq<string>, sep: char): string
    requires |parts| >= 1
    decreases |parts|
  {
    if |parts| == 1 then parts[0] else parts[0] + [sep] + Join(parts[1..], sep)
  }

  lemma JoinConsHead(c: char, parts: seq<string>, sep: char)
    requires |parts| >= 1
    ensures Join([[c] + parts[0]] + parts[1..], sep) == [c] + Join(parts, sep)
  {
    var q := [[c] + parts[0]] + parts[1..];
    assert q[1..] == parts[1..];
  }

  /** Splitting and joining again gives back the original string. */
  lemma {:induction false} JoinSplit(s: string, sep: char)
    ensures Join(Split(s, sep), sep) == s
    decreases |s|
  {
    if |s| > 0 {
      var rest := Split(s[1..], sep);
      JoinSplit(s[1..], sep);
      if s[0] == sep {
        assert ([""] + rest)[1..] == rest;
        assert s == [sep] + s[1..];
      } else {
        JoinConsHead(s[0], rest, sep);
        assert s == [s[0]] + s[1..];
      }
    }
  }

  /** A string splits into a single piece exactly when it has no separator, and that piece is the string. */
  lemma {:induction false} SplitSingle(s: string, sep: char)
    ensures |Split(s, sep)| == 1 <==> sep !in s
    ensures sep !in s ==> Split(s, sep) == [s]
    decreases |s|
  {
    if |s| > 0 {
      SplitSingle(s[1..], sep);
      assert s == [s[0]] + s[1..];
      if s[0] != sep && sep !in s[1..] {
        assert ([s[0]] + s[1..]) == s;
      }
    }
  }

  /** The first piece is everything before the first separator. */
  lemma {:induction false} SplitAtFirst(a: string, b: string, sep: char)
    requires sep !in a
    ensures Split(a + [sep] + b, sep) == [a] + Split(b, sep)
    decreases |a|
  {
    if |a| == 0 {
      assert a + [sep] + b == [sep] + b;
      assert ([sep] + b)[1..] == b;
    } else {
      SplitAtFirst(a[1..], b, sep);
      var s := a + [sep] + b;
      assert s[0] == a[0] && s[1..] == a[1..] + [sep] + b;
      assert [a[0]] + a[1..] == a;
    }
  }

  /** The string without its trailing run of `c`. */
  function TrimTrailing(s: string, c: char): (r: string)
    ensures HasPrefix(s, r)
    ensures r == [] || r[|r| - 1] != c
    ensures forall i :: |r| <= i < |s| ==> s[i] == c
    decreases |s|
  {
    if |s| > 0 && s[|s| - 1] == c then TrimTrailing(s[..|s| - 1], c) else s
  }

  /** What follows the last '/' of `s` (all of `s` when it has none). */
  function AfterLastSlash(s: string): (r: string)
    ensures '/' !in r
    ensures |s| > 0 && s[|s| - 1] != '/' ==> r != []
    decreases |s|
  {
    if |s| == 0 then s
    else if s[|s| - 1] == '/' then ""
    else AfterLastSlash(s[..|s| - 1]) + [s[|s| - 1]]
  }

  /**
   * path.Base: the last element of a slash-separated path, after trailing
   * slashes are removed; "." for the empty path and "/" for a path of slashes only.
   */
  function Base(p: string): string
  {
    if p == [] then "."
    else
      var t := TrimTrailing(p, '/');
      if t == [] then "/" else AfterLastSlash(t)
  }

  /** A base name is never empty, and it holds no slash unless it is the root "/" itself. */
  lemma BaseIsOneElement(p: string)
    ensures Base(p) != []
    ensures Base(p) == "." || Base(p) == "/" || '/' !in Base(p)
  {
  }

  /** After a slash, a name without slashes is what follows the last slash. */
  lemma {:induction false} AfterLastSlashOf(dir: string, name: string)
    requires '/' !in name
    ensures AfterLastSlash(dir + "/" + name) == name
    decreases |name|
  {
    var s := dir + "/" + name;
    if |name| == 0 {
      assert s == dir + "/";
      assert s[|s| - 1] == '/';
    } else {
      var init := name[..|name| - 1];
      var last := name[|name| - 1];
      assert last in name;
      AfterLastSlashOf(dir, init);
      assert s[|s| - 1] == last;
      assert s[..|s| - 1] == dir + "/" + init;
      assert init + [last] == name;
    }
  }

  /** A name without slashes is its own last element. */
  lemma {:induction false} AfterLastSlashNoSlash(name: string)
    requires '/' !in name
    ensures AfterLastSlash(name) == name
    decreases |name|
  {
    if |name| > 0 {
      AfterLastSlashNoSlash(name[..|name| - 1]);
      assert name[..|name| - 1] + [name[|name| - 1]] == name;
    }
  }

  /**
   * A listing's common prefix "dir/" or "parent/dir/" has base "dir",
   * the folder name the listing reports.
   */
  lemma BaseOfCommonPrefix(parent: string, name: string)
    requires name != [] && '/' !in name
    ensures Base(name + "/") == name
    ensures Base(parent + "/" + name + "/") == name
  {
    var s := parent + "/" + name + "/";
    assert TrimTrailing(s, '/') == parent + "/" + name by {
      assert s[..|s| - 1] == parent + "/" + name;
    }
    AfterLastSlashOf(parent, name);
    var s1 := name + "/";
    assert TrimTrailing(s1, '/') == name by {
      assert s1[..|s1| - 1] == name;
    }
    AfterLastSlashNoSlash(name);
  }
}
