/**
 * `java.nio.file.Paths.get` and `Path.resolve` on a Unix file system, on
 * path text: the parts are joined with '/', runs of '/' are collapsed into
 * one and a trailing '/' is dropped (a path of slashes only becomes "/").
 */
module JavaPaths {

  /** No two neighbouring characters of `s` are both '/'. */
  predicate NoDoubleSlash(s: string)
    decreases |s|
  {
    |s| <= 1 || (!(s[0] == '/' && s[1] == '/') && NoDoubleSlash(s[1..]))
  }

  /** `s` with every run of '/' collapsed into a single '/'. */
  function Collapse(s: string): string
    decreases |s|
  {
    if |s| <= 1 then s
    else if s[0] == '/' && s[1] == '/' then Collapse(s[1..])
    else [s[0]] + Collapse(s[1..])
  }

  /** The path text `UnixPath` keeps for `s`: runs of '/' collapsed, and a trailing '/' dropped unless the path is "/". */
  function Normalize(s: string): (r: string)
    ensures NoDoubleSlash(r)
    ensures r == "" <==> s == ""
    ensures r == "/" || r == "" || r[|r| - 1] != '/'
    ensures s != "" ==> r[0] == s[0]
  {
    CollapseShape(s);
    var c := Collapse(s);
    if |c| > 1 && c[|c| - 1] == '/' then
      NoDoubleSlashInit(c);
      NoDoubleSlashEnd(c);
      c[..|c| - 1]
    else c
  }

  /** `Paths.get(first, more)`: an empty `more` adds nothing, and '/' separates non-empty parts. */
  function PathsGet(first: string, more: string): (r: string)
    ensures NoDoubleSlash(r)
    ensures r == "" <==> first == "" && more == ""
    ensures r == "/" || r == "" || r[|r| - 1] != '/'
  {
    Normalize(if more == "" then first else if first == "" then more else first + "/" + more)
  }

  /**
   * `base.resolve(other)` for a normalised `base`: an absolute `other`
   * replaces the base, an empty one keeps it, and otherwise it is appended
   * after one '/'.
   */
  function Resolve(base: string, other: string): (r: string)
    ensures var o := Normalize(other);
            && (o != "" && o[0] == '/' ==> r == o)
            && (o == "" ==> r == base)
            && (o != "" && o[0] != '/' && base != "" ==> r == (if base == "/" then "/" else base + "/") + o)
  {
    var o := Normalize(other);
    if o != "" && o[0] == '/' then o
    else if o == "" then base
    else if base == "" then o
    else if base == "/" then "/" + o
    else base + "/" + o
  }

  /** Concatenation is associative. */
  lemma Assoc(a: string, b: string, c: string)
    ensures a + (b + c) == a + b + c
  {
  }

  /** Dropping the last character of a concatenation drops it from the second part. */
  lemma DropLast(a: string, u: string)
    requires |u| >= 1
    ensures (a + u)[..|a + u| - 1] == a + u[..|u| - 1]
  {
  }

  /** Dropping the last character keeps a text free of "//". */
  lemma {:induction false} NoDoubleSlashInit(s: string)
    requires NoDoubleSlash(s) && |s| >= 1
    ensures NoDoubleSlash(s[..|s| - 1])
    decreases |s|
  {
    if |s| > 2 {
      NoDoubleSlashInit(s[1..]);
      assert s[..|s| - 1][1..] == s[1..][..|s| - 2];
    }
  }

  /** A text without "//" that ends in '/' has something else just before it. */
  lemma {:induction false} NoDoubleSlashEnd(s: string)
    requires NoDoubleSlash(s) && |s| >= 2 && s[|s| - 1] == '/'
    ensures s[|s| - 2] != '/'
    decreases |s|
  {
    if |s| > 2 {
      NoDoubleSlashEnd(s[1..]);
    }
  }

  /** Collapsing keeps the first and the last character and leaves no "//". */
  lemma {:induction false} CollapseShape(s: string)
    ensures |Collapse(s)| <= |s| && (|Collapse(s)| == 0 <==> |s| == 0)
    ensures |s| >= 1 ==> Collapse(s)[0] == s[0] && Collapse(s)[|Collapse(s)| - 1] == s[|s| - 1]
    ensures NoDoubleSlash(Collapse(s))
    decreases |s|
  {
    if |s| > 1 {
      var rest := s[1..];
      CollapseShape(rest);
      assert rest[0] == s[1] && rest[|rest| - 1] == s[|s| - 1];
      if !(s[0] == '/' && s[1] == '/') {
        var c := Collapse(s);
        assert c[1..] == Collapse(rest);
      }
    }
  }

  /** A text without "//" is its own collapse. */
  lemma {:induction false} CollapseFixed(s: string)
    requires NoDoubleSlash(s)
    ensures Collapse(s) == s
    decreases |s|
  {
    if |s| > 1 {
      CollapseFixed(s[1..]);
      assert s == [s[0]] + s[1..];
    }
  }

  /** A segment without '/' has no "//", even behind one '/'. */
  lemma {:induction false} SegmentHasNoDoubleSlash(t: string)
    requires '/' !in t
    ensures NoDoubleSlash(t) && NoDoubleSlash("/" + t)
    decreases |t|
  {
    if |t| > 0 {
      assert forall c :: c in t[1..] ==> c in t;
      SegmentHasNoDoubleSlash(t[1..]);
      assert t[0] in t;
      assert ("/" + t)[1..] == t;
    }
  }

  /** After a text without "//" that does not end where `u` starts with '/', only `u` needs collapsing. */
  lemma {:induction false} CollapseConcat(a: string, u: string)
    requires NoDoubleSlash(a)
    requires !(|a| >= 1 && |u| >= 1 && a[|a| - 1] == '/' && u[0] == '/')
    ensures Collapse(a + u) == a + Collapse(u)
    decreases |a|
  {
    if |a| == 1 {
      if |u| >= 1 {
        assert (a + u)[1..] == u;
      } else {
        assert a + u == a;
      }
    } else if |a| > 1 {
      var a' := a[1..];
      CollapseConcat(a', u);
      assert (a + u)[1..] == a' + u;
      assert a + u == [a[0]] + (a' + u);
    } else {
      assert a + u == u;
    }
  }

  /** Collapsing a prefix first does not change the collapse of the whole. */
  lemma {:induction false} CollapseAppend(w: string, u: string)
    ensures Collapse(w + u) == Collapse(Collapse(w) + u)
    decreases |w|
  {
    if |w| == 0 {
      assert w + u == u && Collapse(w) + u == u;
    } else if |w| == 1 {
      assert Collapse(w) == w;
    } else {
      var w' := w[1..];
      CollapseAppend(w', u);
      CollapseShape(w');
      assert (w + u)[1..] == w' + u;
      if w[0] == '/' && w[1] == '/' {
        assert Collapse(w) == Collapse(w');
      } else {
        var c := Collapse(w');
        assert Collapse(w) == [w[0]] + c;
        assert ([w[0]] + c + u)[1..] == c + u;
        assert (c + u)[0] == c[0] == w[1];
      }
    }
  }

  /** After a text ending in '/', one more '/' makes no difference. */
  lemma {:induction false} SlashAfterSlash(a: string, u: string)
    requires |a| >= 1 && a[|a| - 1] == '/'
    ensures Collapse(a + "/" + u) == Collapse(a + u)
    decreases |a|
  {
    if |a| == 1 {
      assert (a + "/" + u)[1..] == a + u;
    } else {
      var a' := a[1..];
      SlashAfterSlash(a', u);
      assert (a + "/" + u)[1..] == a' + "/" + u;
      assert (a + u)[1..] == a' + u;
      assert (a' + "/" + u)[0] == a'[0] == (a' + u)[0] == a[1];
    }
  }

  /** A text whose collapse does not end in '/' normalises to that collapse. */
  lemma NormalizeCollapsed(s: string)
    requires Collapse(s) != "" && Collapse(s)[|Collapse(s)| - 1] != '/'
    ensures Normalize(s) == Collapse(s)
  {
  }

  /** A text whose collapse is longer than "/" and ends in '/' normalises to that collapse without its last '/'. */
  lemma NormalizeTrailing(s: string)
    requires |Collapse(s)| > 1 && Collapse(s)[|Collapse(s)| - 1] == '/'
    ensures Normalize(s) == Collapse(s)[..|Collapse(s)| - 1]
  {
  }

  /** Texts with the same collapse normalise alike. */
  lemma NormalizeByCollapse(x: string, y: string)
    requires Collapse(x) == Collapse(y)
    ensures Normalize(x) == Normalize(y)
  {
  }

  /** A directory text that already names a directory: it is non-empty and ends in a segment, not in '/'. */
  predicate IsDirectory(b: string) {
    b != "" && NoDoubleSlash(b) && b[|b| - 1] != '/'
  }

  /** Behind a '/', the same '/' written twice is collapsed. */
  lemma SlashBeforeChild(D: string, t: string)
    requires D != "" && D[|D| - 1] == '/'
    ensures Collapse(D + ("/" + t)) == Collapse(D + t)
  {
    SlashAfterSlash(D, t);
    Assoc(D, "/", t);
  }

  /** A segment without '/' is its own collapse, alone and behind one '/'. */
  lemma SegmentFixed(t: string)
    requires '/' !in t
    ensures Collapse(t) == t && Collapse("/" + t) == "/" + t
  {
    SegmentHasNoDoubleSlash(t);
    CollapseFixed(t);
    CollapseFixed("/" + t);
  }

  /** After a collapsed text ending in '/', a '/' and a segment `t` without '/' add only `t`. */
  lemma CollapseAfterSlash(D: string, t: string)
    requires D != "" && NoDoubleSlash(D) && D[|D| - 1] == '/'
    requires t != "" && '/' !in t
    ensures Collapse(D + ("/" + t)) == D + t
  {
    SlashBeforeChild(D, t);
    assert t[0] in t;
    CollapseConcat(D, t);
    SegmentFixed(t);
  }

  /** After a collapsed text not ending in '/', a '/' and a segment `t` without '/' are kept. */
  lemma CollapseAfterSegment(D: string, t: string)
    requires D != "" && NoDoubleSlash(D) && D[|D| - 1] != '/'
    requires '/' !in t
    ensures Collapse(D + ("/" + t)) == D + ("/" + t)
  {
    CollapseConcat(D, "/" + t);
    SegmentFixed(t);
  }

  /** Collapsing `d/t` for a segment `t` without '/': the collapsed `d`, one '/' unless it ends in one, and `t`. */
  lemma CollapseChild(d: string, t: string)
    requires d != "" && t != "" && '/' !in t
    ensures var D := Collapse(d);
            D != "" && Collapse(d + "/" + t) == (if D[|D| - 1] == '/' then D else D + "/") + t
  {
    var D := Collapse(d);
    assert D != "" && NoDoubleSlash(D) by {
      CollapseShape(d);
    }
    assert Collapse(d + "/" + t) == Collapse(D + ("/" + t)) by {
      CollapseAppend(d, "/" + t);
      Assoc(d, "/", t);
    }
    if D[|D| - 1] == '/' {
      CollapseAfterSlash(D, t);
    } else {
      CollapseAfterSegment(D, t);
      Assoc(D, "/", t);
    }
  }

  /** Joining a directory with a segment that holds no '/' yields a directory again. */
  lemma ChildOfText(d: string, t: string)
    requires d != "" && t != "" && '/' !in t
    ensures IsDirectory(PathsGet(d, t))
    ensures Collapse(d + "/" + t) == PathsGet(d, t)
  {
    CollapseChild(d, t);
    CollapseShape(d + "/" + t);
    var c := Collapse(d + "/" + t);
    assert c[|c| - 1] == t[|t| - 1];
    assert t[|t| - 1] in t;
    NormalizeCollapsed(d + "/" + t);
    assert PathsGet(d, t) == Normalize(d + "/" + t);
  }

  /** Behind a first character other than '/', a '/' in front is kept. */
  lemma SlashBeforeRelative(f: string)
    requires f != "" && f[0] != '/'
    ensures Collapse("/" + f) == "/" + Collapse(f)
  {
    CollapseConcat("/", f);
  }

  /** Below a directory, only the rest of a relative path is collapsed. */
  lemma CollapseBelow(b: string, f: string)
    requires IsDirectory(b)
    requires f != "" && f[0] != '/'
    ensures Collapse(b + ("/" + f)) == b + ("/" + Collapse(f))
  {
    SlashBeforeRelative(f);
    CollapseConcat(b, "/" + f);
  }

  /** Below a directory, the rest of a relative path is normalised on its own. */
  lemma BelowDirectory(b: string, f: string)
    requires IsDirectory(b)
    requires f != "" && f[0] != '/'
    ensures Normalize(b + ("/" + f)) == b + ("/" + Normalize(f))
  {
    CollapseShape(f);
    CollapseBelow(b, f);
    var F := Collapse(f);
    var c := b + ("/" + F);
    assert c[|c| - 1] == F[|F| - 1];
    if F[|F| - 1] == '/' {
      NormalizeTrailing(f);
      NormalizeTrailing(b + ("/" + f));
      DropLast(b, "/" + F);
      DropLast("/", F);
    } else {
      NormalizeCollapsed(f);
      NormalizeCollapsed(b + ("/" + f));
    }
  }

  /** A path resolved below a directory holds the same text as the joined path. */
  lemma {:induction false} JoinedEqualsResolved(d: string, t: string, f: string)
    requires d != "" && t != "" && '/' !in t
    requires f != "" && f[0] != '/'
    ensures PathsGet(d, t + "/" + f) == Resolve(PathsGet(d, t), f)
  {
    var b := PathsGet(d, t);
    ChildOfText(d, t);
    var x, y := d + "/" + (t + "/" + f), b + "/" + f;
    Assoc(d + "/", t + "/", f);
    Assoc(d + "/", t, "/");
    Assoc(d + "/" + t, "/", f);
    Assoc(b, "/", f);
    CollapseAppend(d + "/" + t, "/" + f);
    CollapseAppend(b, "/" + f);
    CollapseFixed(b);
    NormalizeByCollapse(x, y);
    assert PathsGet(d, t + "/" + f) == Normalize(x);
    BelowDirectory(b, f);
    Assoc(b, "/", Normalize(f));
  }

  /** One leading '/' of the second part makes no difference to `Paths.get`. */
  lemma LeadingSlashIgnored(d: string, u: string)
    requires d != "" && u != ""
    ensures PathsGet(d, "/" + u) == PathsGet(d, u)
  {
    SlashAfterSlash(d + "/", u);
    assert (d + "/")[|d + "/"| - 1] == '/';
    Assoc(d + "/", "/", u);
    NormalizeByCollapse(d + "/" + ("/" + u), d + "/" + u);
  }

  /** On parts that are already normalised, `Paths.get` is the plain '/'-join. */
  lemma PlainJoin(d: string, u: string)
    requires IsDirectory(d) && IsDirectory(u) && u[0] != '/'
    ensures PathsGet(d, u) == d + "/" + u
  {
    var c := d + "/" + u;
    assert Collapse(c) == c by {
      CollapseBelow(d, u);
      CollapseFixed(u);
      Assoc(d, "/", u);
    }
    assert c[|c| - 1] == u[|u| - 1];
    NormalizeCollapsed(c);
  }
}
