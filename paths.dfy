/** Go's `path.Join` and `path.Clean` for slash-separated paths, written from
    the lexical rules that package documents:
      1. replace multiple slashes with a single slash;
      2. eliminate each `.` path name element;
      3. eliminate each inner `..` element together with the non-`..` element before it;
      4. eliminate `..` elements that begin a rooted path;
    the result has no trailing slash unless it is "/", and an empty result is ".". */
module Paths {

  /** The elements between the slashes of `s` (strings.Split(s, "/")):
      n slashes give n + 1 elements, some of them possibly empty. */
  function Split(s: string): (es: seq<string>)
    ensures |es| >= 1
    ensures forall i :: 0 <= i < |es| ==> '/' !in es[i]
  {
    if s == [] then [[]]
    else
      var rest := Split(s[1..]);
      if s[0] == '/' then [[]] + rest else [[s[0]] + rest[0]] + rest[1..]
  }

  /** The elements separated by single slashes (strings.Join(es, "/")). */
  function JoinSlash(es: seq<string>): string
  {
    if |es| == 0 then []
    else if |es| == 1 then es[0]
    else es[0] + "/" + JoinSlash(es[1..])
  }

  /** Splitting at one slash splits the two sides independently. */
  lemma {:induction false} SplitAtSlash(a: string, b: string)
    ensures Split(a + "/" + b) == Split(a) + Split(b)
  {
    if a == [] {
      assert a + "/" + b == "/" + b;
      assert ("/" + b)[1..] == b;
    } else {
      var s := a + "/" + b;
      assert s[0] == a[0] && s[1..] == a[1..] + "/" + b;
      SplitAtSlash(a[1..], b);
      var rest, left := Split(s[1..]), Split(a[1..]);
      assert rest == left + Split(b);
      if a[0] != '/' {
        assert rest[0] == left[0] && rest[1..] == left[1..] + Split(b);
        assert Split(s) == [[a[0]] + left[0]] + (left[1..] + Split(b));
        assert Split(a) == [[a[0]] + left[0]] + left[1..];
      }
    }
  }

  /** A string without slashes is a single element. */
  lemma {:induction false} SplitPlain(e: string)
    requires '/' !in e
    ensures Split(e) == [e]
  {
    if e != [] {
      SplitPlain(e[1..]);
      assert [e[0]] + e[1..] == e;
    }
  }

  /** Joining what was split gives back the original string. */
  lemma {:induction false} JoinSplit(s: string)
    ensures JoinSlash(Split(s)) == s
  {
    if '/' in s {
      var k :| 0 <= k < |s| && s[k] == '/';
      var a, b := s[..k], s[k + 1..];
      assert s == a + "/" + b;
      SplitAtSlash(a, b);
      JoinSplit(a);
      JoinSplit(b);
      JoinAppend(Split(a), Split(b));
    } else {
      SplitPlain(s);
    }
  }

  /** Joining two non-empty lists of elements puts exactly one slash between them. */
  lemma {:induction false} JoinAppend(xs: seq<string>, ys: seq<string>)
    requires |xs| >= 1 && |ys| >= 1
    ensures JoinSlash(xs + ys) == JoinSlash(xs) + "/" + JoinSlash(ys)
  {
    if |xs| > 1 {
      JoinAppend(xs[1..], ys);
      assert (xs + ys)[1..] == xs[1..] + ys;
    } else {
      assert (xs + ys)[1..] == ys;
    }
  }

  /** Splitting what was joined gives back the elements, provided they hold no slash. */
  lemma {:induction false} SplitJoin(es: seq<string>)
    requires |es| >= 1
    requires forall i :: 0 <= i < |es| ==> '/' !in es[i]
    ensures Split(JoinSlash(es)) == es
  {
    if |es| == 1 {
      SplitPlain(es[0]);
    } else {
      SplitJoin(es[1..]);
      SplitPlain(es[0]);
      SplitAtSlash(es[0], JoinSlash(es[1..]));
      assert [es[0]] + es[1..] == es;
    }
  }

  /** The stack of elements that cleaning keeps, processing `es` left to right:
      empty and `.` elements are dropped, `..` removes the last kept name, is
      dropped at the root, and is otherwise kept. */
  function Resolve(es: seq<string>, rooted: bool, stack: seq<string>): (r: seq<string>)
    ensures |r| <= |stack| + |es|
    ensures rooted && ".." !in stack ==> ".." !in r
  {
    if es == [] then stack
    else
      var e := es[0];
      if e == "" || e == "." then Resolve(es[1..], rooted, stack)
      else if e == ".." then
        if stack != [] && stack[|stack| - 1] != ".." then Resolve(es[1..], rooted, stack[..|stack| - 1])
        else if rooted then Resolve(es[1..], rooted, stack)
        else Resolve(es[1..], rooted, stack + [".."])
      else Resolve(es[1..], rooted, stack + [e])
  }

  /** Elements of a clean path: none empty, none `.`, none holding a slash;
      `..` only at the front, and never in a rooted path. */
  ghost predicate CleanElements(es: seq<string>, rooted: bool) {
    && (forall i :: 0 <= i < |es| ==>
          es[i] != "" && es[i] != "." && '/' !in es[i] && (rooted ==> es[i] != ".."))
    && (forall i, j :: 0 <= i < j < |es| && es[j] == ".." ==> es[i] == "..")
  }

  /** A path that path.Clean leaves as it is. */
  ghost predicate IsClean(p: string) {
    || p == "."
    || p == "/"
    || (|p| > 1 && p[0] == '/' && CleanElements(Split(p[1..]), true))
    || (p != [] && p[0] != '/' && CleanElements(Split(p), false))
  }

  /** path.Clean: the shortest path equivalent to `p` by purely lexical processing. */
  function Clean(p: string): (r: string)
    ensures r != [] && IsClean(r)
    ensures p != [] && p[0] == '/' <==> r[0] == '/'
  {
    if p == [] then "."
    else
      var rooted := p[0] == '/';
      var kept := Resolve(Split(p), rooted, []);
      ResolveKeepsClean(Split(p), rooted, []);
      CleanFromElements(kept, rooted);
      var out := JoinSlash(kept);
      if rooted then "/" + out else if out == [] then "." else out
  }

  /** Resolving slash-free elements onto a clean stack leaves a clean stack. */
  lemma {:induction false} ResolveKeepsClean(es: seq<string>, rooted: bool, stack: seq<string>)
    requires forall i :: 0 <= i < |es| ==> '/' !in es[i]
    requires CleanElements(stack, rooted)
    ensures CleanElements(Resolve(es, rooted, stack), rooted)
  {
    if es != [] {
      var e := es[0];
      if e == "" || e == "." {
        ResolveKeepsClean(es[1..], rooted, stack);
      } else if e == ".." {
        if stack != [] && stack[|stack| - 1] != ".." {
          ResolveKeepsClean(es[1..], rooted, stack[..|stack| - 1]);
        } else if rooted {
          ResolveKeepsClean(es[1..], rooted, stack);
        } else {
          ResolveKeepsClean(es[1..], rooted, stack + [".."]);
        }
      } else {
        ResolveKeepsClean(es[1..], rooted, stack + [e]);
      }
    }
  }

  /** The first character of a join is that of its first element. */
  lemma JoinSlashStart(es: seq<string>)
    requires |es| >= 1 && es[0] != ""
    ensures JoinSlash(es) != [] && JoinSlash(es)[0] == es[0][0]
  {
  }

  /** Joining clean elements, with a leading slash when rooted, gives a clean path. */
  lemma CleanFromElements(kept: seq<string>, rooted: bool)
    requires CleanElements(kept, rooted)
    ensures var out := JoinSlash(kept);
            IsClean(if rooted then "/" + out else if out == [] then "." else out)
    ensures kept != [] ==> JoinSlash(kept) != [] && JoinSlash(kept)[0] != '/'
  {
    if kept != [] {
      JoinSlashStart(kept);
      SplitJoin(kept);
      var out := JoinSlash(kept);
      if rooted {
        assert ("/" + out)[1..] == out;
      }
    }
  }

  /** Resolving elements whose stack is already clean pushes every one of them. */
  lemma {:induction false} ResolveClean(es: seq<string>, rooted: bool, stack: seq<string>)
    requires CleanElements(stack + es, rooted)
    ensures Resolve(es, rooted, stack) == stack + es
  {
    if es != [] {
      var e := es[0];
      assert (stack + es)[|stack|] == e;
      assert stack + es == (stack + [e]) + es[1..];
      if e == ".." {
        assert forall i :: 0 <= i < |stack| ==> stack[i] == (stack + es)[i];
        if stack != [] {
          assert stack[|stack| - 1] == "..";
        }
      }
      ResolveClean(es[1..], rooted, stack + [e]);
    }
  }

  /** Clean leaves a clean path unchanged. */
  lemma CleanFixesClean(p: string)
    requires IsClean(p)
    ensures Clean(p) == p
  {
    if p == "." {
      SplitPlain(p);
      var es: seq<string> := ["."];
      assert Split(p) == es && es[0] == "." && es[1..] == [];
      assert Resolve(Split(p), false, []) == [];
    } else if p == "/" {
      assert p[1..] == [];
      var es: seq<string> := [[], []];
      assert Split(p) == es && es[1..] == [[]] && es[1..][1..] == [];
      assert Resolve(Split(p), true, []) == [];
    } else if p[0] == '/' {
      var es := Split(p[1..]);
      assert [p[0]] + p[1..] == p;
      assert Split(p) == [[]] + es;
      ResolveClean(es, true, []);
      assert Resolve(Split(p), true, []) == es;
      JoinSplit(p[1..]);
    } else {
      assert [] + Split(p) == Split(p);
      ResolveClean(Split(p), false, []);
      JoinSplit(p);
    }
  }

  /** Cleaning keeps the meaning of a path: the names its element loop keeps
      are those kept for the original path. */
  lemma CleanKeepsNames(p: string)
    ensures var rooted := p != [] && p[0] == '/';
            Resolve(Split(Clean(p)), rooted, []) == Resolve(Split(p), rooted, [])
  {
    var rooted := p != [] && p[0] == '/';
    var kept := Resolve(Split(p), rooted, []);
    if p == [] {
      var es: seq<string> := [[]];
      assert Split(p) == es && es[1..] == [];
      SplitPlain(".");
      var dot: seq<string> := ["."];
      assert Split(Clean(p)) == dot && dot[1..] == [];
    } else {
      ResolveKeepsClean(Split(p), rooted, []);
      var out := JoinSlash(kept);
      if kept == [] {
        if rooted {
          var es: seq<string> := [[], []];
          assert Clean(p) == "/";
          assert Split("/") == es && es[1..] == [[]] && es[1..][1..] == [];
        } else {
          SplitPlain(".");
          var dot: seq<string> := ["."];
          assert Split(Clean(p)) == dot && dot[1..] == [];
        }
      } else {
        SplitJoin(kept);
        assert [] + kept == kept;
        ResolveClean(kept, rooted, []);
        if rooted {
          assert Clean(p) == "/" + out;
          SplitAtSlash([], out);
          assert [] + "/" + out == "/" + out;
          assert Split([]) == [[]];
          assert Split("/" + out) == [[]] + kept;
        } else {
          CleanFromElements(kept, false);
          assert Clean(p) == out;
        }
      }
    }
  }

  /** Cleaning is idempotent. */
  lemma CleanIdempotent(p: string)
    ensures Clean(Clean(p)) == Clean(p)
  {
    CleanFixesClean(Clean(p));
  }

  /** No element of a clean path is empty, so no two slashes are adjacent. */
  lemma CleanHasNoDoubleSlash(p: string)
    ensures var r := Clean(p);
            forall i :: 0 <= i < |r| - 1 ==> !(r[i] == '/' && r[i + 1] == '/')
  {
    var r := Clean(p);
    if |r| > 1 && r[0] == '/' {
      var es := Split(r[1..]);
      JoinSplit(r[1..]);
      JoinNoDoubleSlash(es);
      JoinSlashStart(es);
      assert r == "/" + r[1..];
    } else if r != [] && r[0] != '/' && r != "." {
      JoinSplit(r);
      JoinNoDoubleSlash(Split(r));
    }
  }

  /** Joining non-empty, slash-free elements never puts two slashes together,
      nor a slash at either end. */
  lemma {:induction false} JoinNoDoubleSlash(es: seq<string>)
    requires forall i :: 0 <= i < |es| ==> es[i] != "" && '/' !in es[i]
    ensures var s := JoinSlash(es);
            && (forall i :: 0 <= i < |s| - 1 ==> !(s[i] == '/' && s[i + 1] == '/'))
            && (s != [] ==> s[0] != '/' && s[|s| - 1] != '/')
  {
    if |es| > 1 {
      JoinNoDoubleSlash(es[1..]);
      var t := JoinSlash(es[1..]);
      var s := es[0] + "/" + t;
      assert s == JoinSlash(es);
      forall i | 0 <= i < |s| - 1
        ensures !(s[i] == '/' && s[i + 1] == '/')
      {
        if i < |es[0]| - 1 {
          assert s[i] == es[0][i];
        } else if i == |es[0]| - 1 {
          assert s[i] == es[0][i];
        } else if i == |es[0]| {
          assert s[i + 1] == t[0];
        } else {
          assert s[i] == t[i - |es[0]| - 1] && s[i + 1] == t[i - |es[0]|];
        }
      }
    }
  }

  /** path.Join for two elements, as Go's implementation builds it: empty
      elements are skipped (an empty second element still leaves its slash,
      which Clean then drops), an all-empty argument list gives "", and the
      joined buffer is cleaned. */
  function Join(a: string, b: string): (r: string)
    ensures r == [] <==> a == [] && b == []
    ensures r != [] ==> IsClean(r)
  {
    if |a| + |b| == 0 then []
    else Clean(if a == [] then b else a + "/" + b)
  }
}
