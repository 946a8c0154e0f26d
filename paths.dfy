/** Node's `path.dirname` for POSIX paths, which the file writer uses to find
    the directory of each generated file, and the way the operating system
    reads a path: runs of slashes count as one, and a trailing slash names
    the directory itself. */
module Paths {
  import opened Values

  /** The scan of `dirname` from position `i` down to 1: the first slash that
      follows (in the scan) a character other than a slash. `matchedSlash`
      holds while only slashes have been seen. */
  function SlashEnd(p: string, i: nat, matchedSlash: bool): (r: Option<nat>)
    requires i < |p|
    ensures r.Some? ==> 1 <= r.value <= i && p[r.value] == '/'
    decreases i
  {
    if i < 1 then None
    else if p[i] == '/' then (if !matchedSlash then Some(i) else SlashEnd(p, i - 1, matchedSlash))
    else SlashEnd(p, i - 1, false)
  }

  /** `path.posix.dirname(p)`: everything before the last separator that is
      not trailing; "." for a bare name, "/" and "//" for the roots. */
  function DirName(p: string): (d: string)
    ensures |d| > 0
    ensures d == "." || (|d| <= |p| && d == p[..|d|])
  {
    if |p| == 0 then "."
    else
      var end := SlashEnd(p, |p| - 1, true);
      if end.None? then (if p[0] == '/' then "/" else ".")
      else if p[0] == '/' && end.value == 1 then "//"
      else p[..end.value]
  }

  /** Scanning back over a name without a slash reaches the slash before it. */
  lemma {:induction false} SlashEndOverName(p: string, s: nat, i: nat, matchedSlash: bool)
    requires 1 <= s < i < |p| && p[s] == '/'
    requires forall k :: s < k <= i ==> p[k] != '/'
    ensures SlashEnd(p, i, matchedSlash) == Some(s)
    decreases i
  {
    if i - 1 > s {
      SlashEndOverName(p, s, i - 1, false);
    }
  }

  /** The directory of `dir/name` is `dir` when `name` is a plain name and
      `dir` is not the root. */
  lemma DirNameOfChild(dir: string, name: string)
    requires dir != [] && dir != "/"
    requires name != [] && '/' !in name
    ensures DirName(dir + "/" + name) == dir
  {
    var p := dir + "/" + name;
    forall k | |dir| < k <= |p| - 1
      ensures p[k] != '/'
    {
      assert p[k] == name[k - |dir| - 1];
    }
    SlashEndOverName(p, |dir|, |p| - 1, true);
    assert p[..|dir|] == dir;
  }

  /** No two slashes in a row. */
  predicate NoDoubleSlash(s: string)
  {
    forall i :: 0 <= i < |s| - 1 ==> !(s[i] == '/' && s[i + 1] == '/')
  }

  /** The path with every run of slashes collapsed to one. */
  function Collapse(s: string): (c: string)
    ensures |c| <= |s|
    ensures |s| > 0 ==> |c| > 0
    decreases |s|
  {
    if |s| <= 1 then s
    else if s[0] == '/' && s[1] == '/' then Collapse(s[1..])
    else [s[0]] + Collapse(s[1..])
  }

  /** Collapsing keeps the first and the last character. */
  lemma {:induction false} CollapseEnds(s: string)
    requires |s| > 0
    ensures Collapse(s)[0] == s[0] && Collapse(s)[|Collapse(s)| - 1] == s[|s| - 1]
    decreases |s|
  {
    if |s| > 1 {
      CollapseEnds(s[1..]);
      assert s[1..][0] == s[1];
    }
  }

  /** A collapsed path has no two slashes in a row. */
  lemma {:induction false} CollapseNoDouble(s: string)
    ensures NoDoubleSlash(Collapse(s))
    decreases |s|
  {
    if |s| > 1 {
      CollapseNoDouble(s[1..]);
      if !(s[0] == '/' && s[1] == '/') {
        var rest := Collapse(s[1..]);
        var c := [s[0]] + rest;
        assert Collapse(s) == c;
        forall i | 0 <= i < |c| - 1
          ensures !(c[i] == '/' && c[i + 1] == '/')
        {
          if i > 0 {
            assert c[i] == rest[i - 1] && c[i + 1] == rest[i];
          } else {
            CollapseEnds(s[1..]);
            assert c[1] == rest[0] == s[1];
          }
        }
      }
    }
  }

  /** A path that ends in a slash, which names a directory and never a file. */
  predicate EndsInSlash(p: string)
  {
    |p| > 0 && p[|p| - 1] == '/'
  }

  /** The file or directory a path names: slashes collapsed and a trailing
      slash dropped, except from the root itself. */
  function Canon(s: string): (c: string)
    ensures |c| <= |s|
    ensures |s| > 0 ==> |c| > 0
    ensures |c| > 1 ==> c[|c| - 1] != '/'
  {
    var c := Collapse(s);
    if |c| > 1 && c[|c| - 1] == '/' then
      CollapseNoDouble(s);
      assert c[|c| - 2] != '/';
      c[..|c| - 1]
    else c
  }

  /** Collapsing a path with one more character in front. */
  lemma CollapseCons(c: char, s: string)
    ensures Collapse([c] + s) == if c == '/' && s != [] && s[0] == '/' then Collapse(s) else [c] + Collapse(s)
  {
    var t := [c] + s;
    if s != [] {
      assert t[0] == c && t[1] == s[0] && t[1..] == s;
    } else {
      assert t == [c];
    }
  }

  /** One character in front of two pieces that collapse separately. */
  lemma CollapseAppendStep(h: char, rest: string, b: string)
    requires rest != []
    requires Collapse(rest + b) == Collapse(rest) + Collapse(b)
    ensures Collapse([h] + (rest + b)) == Collapse([h] + rest) + Collapse(b)
  {
    var t := rest + b;
    assert t[0] == rest[0];
    if h == '/' && rest[0] == '/' {
      calc {
        Collapse([h] + t);
        { CollapseCons(h, t); }
        Collapse(t);
        Collapse(rest) + Collapse(b);
        { CollapseCons(h, rest); }
        Collapse([h] + rest) + Collapse(b);
      }
    } else {
      calc {
        Collapse([h] + t);
        { CollapseCons(h, t); }
        [h] + (Collapse(rest) + Collapse(b));
        ([h] + Collapse(rest)) + Collapse(b);
        { CollapseCons(h, rest); }
        Collapse([h] + rest) + Collapse(b);
      }
    }
  }

  /** Collapsing works piece by piece where the pieces do not meet in two slashes. */
  lemma {:induction false} CollapseAppend(a: string, b: string)
    requires a == [] || b == [] || a[|a| - 1] != '/' || b[0] != '/'
    ensures Collapse(a + b) == Collapse(a) + Collapse(b)
    decreases |a|
  {
    if |a| == 0 {
      assert a + b == b;
      assert Collapse(a) + Collapse(b) == Collapse(b);
    } else if |a| == 1 {
      assert a + b == [a[0]] + b;
      CollapseCons(a[0], b);
      assert Collapse(a) == a;
    } else {
      var rest := a[1..];
      assert rest[|rest| - 1] == a[|a| - 1];
      CollapseAppend(rest, b);
      CollapseAppendStep(a[0], rest, b);
      assert a + b == [a[0]] + (rest + b);
      assert a == [a[0]] + rest;
    }
  }

  /** A path without two slashes in a row is already collapsed. */
  lemma {:induction false} CollapseClean(s: string)
    requires NoDoubleSlash(s)
    ensures Collapse(s) == s
    decreases |s|
  {
    if |s| > 1 {
      forall i | 0 <= i < |s[1..]| - 1
        ensures !(s[1..][i] == '/' && s[1..][i + 1] == '/')
      {
        assert s[1..][i] == s[i + 1] && s[1..][i + 1] == s[i + 2];
      }
      CollapseClean(s[1..]);
      assert s == [s[0]] + s[1..];
    }
  }

  /** Two clean paths stay clean when joined, unless they meet in two slashes. */
  lemma NoDoubleSlashAppend(a: string, b: string)
    requires NoDoubleSlash(a) && NoDoubleSlash(b)
    requires a == [] || b == [] || a[|a| - 1] != '/' || b[0] != '/'
    ensures NoDoubleSlash(a + b)
  {
    var t := a + b;
    forall i | 0 <= i < |t| - 1
      ensures !(t[i] == '/' && t[i + 1] == '/')
    {
      if i + 1 < |a| {
        assert t[i] == a[i] && t[i + 1] == a[i + 1];
      } else if i >= |a| {
        assert t[i] == b[i - |a|] && t[i + 1] == b[i + 1 - |a|];
      } else {
        assert t[i] == a[|a| - 1] && t[i + 1] == b[0];
      }
    }
  }

  /** A name without slashes is clean. */
  lemma NoSlashClean(s: string)
    requires '/' !in s
    ensures NoDoubleSlash(s)
  {
    forall i | 0 <= i < |s| - 1
      ensures s[i] != '/'
    {
      assert s[i] in s;
    }
  }

  /** A path that starts and ends with a name reads the same after anything
      it is appended to. */
  lemma CanonJoin(x: string, a: string)
    requires a != [] && a[0] != '/' && a[|a| - 1] != '/'
    ensures Canon(x + a) == Collapse(x) + Collapse(a)
  {
    CollapseAppend(x, a);
    CollapseEnds(x + a);
    assert (x + a)[|x + a| - 1] == a[|a| - 1];
  }

  /** A clean name followed by a slash names the name, read after anything. */
  lemma CanonDir(x: string, a: string)
    requires a != [] && a[0] != '/' && a[|a| - 1] != '/' && NoDoubleSlash(a)
    ensures Canon(x + a + "/") == Collapse(x) + a
  {
    NoDoubleSlashAppend(a, "/");
    CollapseClean(a + "/");
    assert x + a + "/" == x + (a + "/");
    CollapseAppend(x, a + "/");
    var c := Collapse(x) + (a + "/");
    assert |c| > 1 && c[|c| - 1] == '/';
    assert c[..|c| - 1] == Collapse(x) + a;
  }

  /** Joining two clean paths with one slash, or with two, gives the same
      clean path. */
  lemma {:induction false} JoinClean(a: string, w: string)
    requires a != [] && a[|a| - 1] != '/' && NoDoubleSlash(a)
    requires w != [] && w[0] != '/' && NoDoubleSlash(w)
    ensures Collapse(a + "/" + w) == a + "/" + w
    ensures Collapse(a + "//" + w) == a + "/" + w
  {
    var sw := "/" + w;
    var ssw := "/" + sw;
    CollapseClean(a);
    CollapseClean(w);
    CollapseCons('/', w);
    assert Collapse(sw) == sw;
    CollapseCons('/', sw);
    assert Collapse(ssw) == sw;
    assert a + "/" + w == a + sw;
    assert a + "//" + w == a + ssw;
    CollapseAppend(a, sw);
    CollapseAppend(a, ssw);
  }

  /** The directories `mkdir(p, { recursive: true })` makes or finds: every
      prefix of `p` that ends before a slash, and `p` itself. */
  function Ancestors(p: string): (r: set<string>)
    ensures p != [] ==> p in r
    ensures forall a :: a in r ==> 0 < |a| <= |p| && a == p[..|a|]
  {
    assert p != [] ==> p[..|p|] == p;
    set i | 0 < i <= |p| && (i == |p| || p[i] == '/') :: p[..i]
  }
}
