/** `cn(...classes)`: keep the truthy arguments, convert each to its string
    form, and join them with a single space, in argument order. */
module ClassNames {
  import opened Js

  /** `classes.filter(Boolean)`, each survivor already in the string form that
      `join` gives it. */
  function Kept(args: seq<Value>): (ts: seq<string>)
    ensures |ts| <= |args|
    ensures forall k :: 0 <= k < |ts| ==> ts[k] != ""
  {
    if args == [] then []
    else
      var n := |args| - 1;
      Kept(args[..n]) + (if Truthy(args[n]) then [ToString(args[n])] else [])
  }

  /** `parts.join(sep)`. */
  function Join(parts: seq<string>, sep: string): (r: string)
    ensures (forall k :: 0 <= k < |parts| ==> parts[k] != "") ==> (r == "" <==> parts == [])
  {
    if parts == [] then ""
    else if |parts| == 1 then parts[0]
    else parts[0] + sep + Join(parts[1..], sep)
  }

  /** The class-name composer. It is empty exactly when no argument is truthy. */
  function Cn(args: seq<Value>): (r: string)
    ensures r == "" <==> forall i :: 0 <= i < |args| ==> !Truthy(args[i])
  {
    KeptEmptyIff(args);
    Join(Kept(args), " ")
  }

  /** The truthy arguments themselves, in order. */
  function TruthyArgs(args: seq<Value>): (r: seq<Value>)
    ensures |r| <= |args|
    ensures forall k :: 0 <= k < |r| ==> Truthy(r[k])
  {
    if args == [] then []
    else
      var n := |args| - 1;
      TruthyArgs(args[..n]) + (if Truthy(args[n]) then [args[n]] else [])
  }

  /** Positions of the truthy arguments: an independent description of which
      arguments `cn` keeps. Strictly increasing, and exactly the truthy ones. */
  function Positions(args: seq<Value>): (ps: seq<nat>)
    ensures forall k :: 0 <= k < |ps| ==> ps[k] < |args| && Truthy(args[ps[k]])
    ensures forall k, l :: 0 <= k < l < |ps| ==> ps[k] < ps[l]
    ensures forall i :: 0 <= i < |args| && Truthy(args[i]) ==> i in ps
  {
    if args == [] then []
    else
      var n := |args| - 1;
      var ps := Positions(args[..n]);
      assert forall k :: 0 <= k < |ps| ==> ps[k] < n && args[ps[k]] == args[..n][ps[k]];
      assert forall i :: 0 <= i < n ==> args[i] == args[..n][i];
      ps + (if Truthy(args[n]) then [n] else [])
  }

  /** The text added after earlier classes by one more argument. */
  function Part(v: Value): string {
    if Truthy(v) then " " + ToString(v) else ""
  }

  function Parts(vs: seq<Value>): string {
    if vs == [] then "" else Parts(vs[..|vs| - 1]) + Part(vs[|vs| - 1])
  }

  /** A class string with no leading or trailing space and no two spaces in a row. */
  predicate WellSpaced(s: string) {
    s == [] || (s[0] != ' ' && s[|s| - 1] != ' ' && forall i :: 0 < i < |s| && s[i] == ' ' ==> s[i - 1] != ' ')
  }

  /** `s.split(' ')`: always at least one piece. */
  function Split(s: string): (r: seq<string>)
    ensures r != []
    ensures Join(r, " ") == s
  {
    if s == [] then [""]
    else
      var rest := Split(s[1..]);
      if s[0] == ' ' then
        assert Join([""] + rest, " ") == " " + Join(rest, " ") by {
          assert ([""] + rest)[1..] == rest;
        }
        [""] + rest
      else
        var r := [[s[0]] + rest[0]] + rest[1..];
        assert Join(r, " ") == s by {
          if |rest| > 1 {
            assert r[1..] == rest[1..];
          }
        }
        r
  }

  // ---------------------------------------------------------------------------
  // Filtering

  lemma ConcatAssoc(a: string, b: string, c: string)
    ensures a + (b + c) == a + b + c
  {
  }

  lemma {:induction false} KeptEmptyIff(args: seq<Value>)
    ensures Kept(args) == [] <==> forall i :: 0 <= i < |args| ==> !Truthy(args[i])
  {
    if args != [] {
      var n := |args| - 1;
      KeptEmptyIff(args[..n]);
      assert forall i :: 0 <= i < n ==> args[..n][i] == args[i];
    }
  }

  lemma {:induction false} KeptAppend(a: seq<Value>, b: seq<Value>)
    ensures Kept(a + b) == Kept(a) + Kept(b)
  {
    if b == [] {
      assert a + b == a;
    } else {
      var n := |b| - 1;
      assert (a + b)[..|a + b| - 1] == a + b[..n];
      assert (a + b)[|a + b| - 1] == b[n];
      KeptAppend(a, b[..n]);
    }
  }

  /** `cn` keeps one class per truthy argument, in argument order, with no
      deduplication: the k-th class is the string form of the k-th truthy argument. */
  lemma {:induction false} KeptByPositions(args: seq<Value>)
    ensures |Kept(args)| == |Positions(args)|
    ensures forall k :: 0 <= k < |Kept(args)| ==> Kept(args)[k] == ToString(args[Positions(args)[k]])
  {
    if args != [] {
      var n := |args| - 1;
      var init := args[..n];
      KeptByPositions(init);
      var ps := Positions(init);
      var ks := Kept(init);
      assert Kept(args) == ks + (if Truthy(args[n]) then [ToString(args[n])] else []);
      assert Positions(args) == ps + (if Truthy(args[n]) then [n] else []);
      forall k | 0 <= k < |ks|
        ensures Kept(args)[k] == ToString(args[Positions(args)[k]])
      {
        assert Kept(args)[k] == ks[k] && Positions(args)[k] == ps[k];
        assert init[ps[k]] == args[ps[k]];
      }
    }
  }

  lemma {:induction false} KeptOfTruthyArgs(args: seq<Value>)
    ensures Kept(TruthyArgs(args)) == Kept(args)
  {
    if args != [] {
      var n := |args| - 1;
      KeptOfTruthyArgs(args[..n]);
      KeptAppend(TruthyArgs(args[..n]), if Truthy(args[n]) then [args[n]] else []);
      if Truthy(args[n]) {
        assert [args[n]][..0] == [];
      }
    }
  }

  // ---------------------------------------------------------------------------
  // Joining

  lemma {:induction false} JoinAppend(a: seq<string>, b: seq<string>, sep: string)
    requires a != [] && b != []
    ensures Join(a + b, sep) == Join(a, sep) + sep + Join(b, sep)
  {
    if |a| == 1 {
      assert (a + b)[1..] == b;
    } else {
      assert (a + b)[1..] == a[1..] + b;
      JoinAppend(a[1..], b, sep);
      var x, p, q := a[0] + sep, Join(a[1..], sep), Join(b, sep);
      assert Join(a + b, sep) == x + ((p + sep) + q);
      ConcatAssoc(x, p + sep, q);
      ConcatAssoc(x, p, sep);
    }
  }

  lemma ConcatWellSpaced(p: string, q: string)
    requires p != "" && q != "" && WellSpaced(p) && WellSpaced(q)
    ensures WellSpaced(p + " " + q)
  {
    var s := p + " " + q;
    forall i | 0 < i < |s| && s[i] == ' '
      ensures s[i - 1] != ' '
    {
      if i < |p| {
        assert s[i] == p[i] && s[i - 1] == p[i - 1];
      } else if i > |p| + 1 {
        assert s[i] == q[i - |p| - 1] && s[i - 1] == q[i - |p| - 2];
      }
    }
  }

  lemma {:induction false} JoinWellSpaced(parts: seq<string>)
    requires forall k :: 0 <= k < |parts| ==> parts[k] != "" && WellSpaced(parts[k])
    ensures WellSpaced(Join(parts, " "))
  {
    if |parts| > 1 {
      JoinWellSpaced(parts[1..]);
      ConcatWellSpaced(parts[0], Join(parts[1..], " "));
    }
  }

  // ---------------------------------------------------------------------------
  // Splitting

  lemma {:induction false} SplitNoSpace(p: string)
    requires ' ' !in p
    ensures Split(p) == [p]
  {
    if p != [] {
      assert ' ' !in p[1..] by {
        forall i | 0 <= i < |p[1..]| ensures p[1..][i] != ' ' { assert p[1..][i] == p[i + 1]; }
      }
      SplitNoSpace(p[1..]);
    }
  }

  lemma {:induction false} SplitAfterWord(p: string, rest: string)
    requires ' ' !in p
    ensures Split(p + " " + rest) == [p] + Split(rest)
  {
    var s := p + " " + rest;
    if p == [] {
      assert s[1..] == rest;
    } else {
      assert s[1..] == p[1..] + " " + rest;
      assert ' ' !in p[1..] by {
        forall i | 0 <= i < |p[1..]| ensures p[1..][i] != ' ' { assert p[1..][i] == p[i + 1]; }
      }
      SplitAfterWord(p[1..], rest);
      assert [p[0]] + p[1..] == p;
    }
  }

  /** Splitting a space-joined list of space-free words gives the words back. */
  lemma {:induction false} SplitJoin(parts: seq<string>)
    requires parts != []
    requires forall k :: 0 <= k < |parts| ==> ' ' !in parts[k]
    ensures Split(Join(parts, " ")) == parts
  {
    if |parts| == 1 {
      SplitNoSpace(parts[0]);
    } else {
      SplitJoin(parts[1..]);
      SplitAfterWord(parts[0], Join(parts[1..], " "));
    }
  }

  // ---------------------------------------------------------------------------
  // Properties of cn

  /** Composing two argument lists is composing their results, with one
      separating space only when both sides contribute. */
  lemma CnAppend(a: seq<Value>, b: seq<Value>)
    ensures Cn(a + b) == if Cn(a) == "" then Cn(b) else if Cn(b) == "" then Cn(a) else Cn(a) + " " + Cn(b)
  {
    KeptAppend(a, b);
    assert Cn(a) == "" <==> Kept(a) == [];
    assert Cn(b) == "" <==> Kept(b) == [];
    if Kept(a) == [] {
      assert Kept(a + b) == Kept(b);
    } else if Kept(b) == [] {
      assert Kept(a + b) == Kept(a);
    } else {
      JoinAppend(Kept(a), Kept(b), " ");
    }
  }

  lemma CnOne(v: Value)
    ensures Cn([v]) == if Truthy(v) then ToString(v) else ""
  {
    assert [v][..0] == [];
  }

  /** Joining a first class with the kept later arguments: every later truthy
      argument adds one space and its own text, in order. */
  lemma {:induction false} JoinAfterFirst(t: string, rest: seq<Value>)
    ensures Join([t] + Kept(rest), " ") == t + Parts(rest)
  {
    if rest == [] {
      assert [t] + Kept(rest) == [t];
    } else {
      var n := |rest| - 1;
      var init, x := rest[..n], rest[n];
      JoinAfterFirst(t, init);
      assert rest == init + [x];
      PartsSnoc(init, x);
      var j := Join([t] + Kept(init), " ");
      if Truthy(x) {
        var sx := ToString(x);
        assert [t] + Kept(rest) == ([t] + Kept(init)) + [sx];
        JoinAppend([t] + Kept(init), [sx], " ");
        ConcatAssoc(t, Parts(init), " " + sx);
        ConcatAssoc(j, " ", sx);
      } else {
        assert Kept(rest) == Kept(init);
        assert Part(x) == "";
        assert Parts(init) + Part(x) == Parts(init);
      }
    }
  }

  /** With a truthy first argument, the result is its text followed by one
      space and the text of each later truthy argument, in order. */
  lemma CnAfterFirst(first: Value, rest: seq<Value>)
    requires Truthy(first)
    ensures Cn([first] + rest) == ToString(first) + Parts(rest)
  {
    KeptAppend([first], rest);
    assert [first][..0] == [];
    assert Kept([first]) == [ToString(first)];
    JoinAfterFirst(ToString(first), rest);
  }

  lemma PartsSnoc(vs: seq<Value>, x: Value)
    ensures Parts(vs + [x]) == Parts(vs) + Part(x)
  {
    assert (vs + [x])[..|vs|] == vs;
  }

  /** A base class followed by one, two or three further arguments. */
  lemma PartsOne(v: Value)
    ensures Parts([v]) == Part(v)
  {
    PartsSnoc([], v);
    assert [] + [v] == [v];
  }

  lemma PartsTwo(v: Value, s: Value)
    ensures Parts([v, s]) == Part(v) + Part(s)
  {
    assert [v, s] == [v] + [s];
    PartsSnoc([v], s);
    PartsOne(v);
  }

  lemma PartsThree(v: Value, s: Value, c: Value)
    ensures Parts([v, s, c]) == Part(v) + Part(s) + Part(c)
  {
    assert [v, s, c] == [v, s] + [c];
    PartsSnoc([v, s], c);
    PartsTwo(v, s);
  }

  lemma CnBaseThen1(base: string, c: Value)
    requires base != ""
    ensures Cn([Str(base), c]) == base + Part(c)
  {
    CnAfterFirst(Str(base), [c]);
    assert [Str(base)] + [c] == [Str(base), c];
    PartsOne(c);
  }

  lemma CnBaseThen2(base: string, v: Value, c: Value)
    requires base != ""
    ensures Cn([Str(base), v, c]) == base + Part(v) + Part(c)
  {
    CnAfterFirst(Str(base), [v, c]);
    assert [Str(base)] + [v, c] == [Str(base), v, c];
    PartsTwo(v, c);
    ConcatAssoc(base, Part(v), Part(c));
  }

  lemma CnBaseThen3(base: string, v: Value, s: Value, c: Value)
    requires base != ""
    ensures Cn([Str(base), v, s, c]) == base + Part(v) + Part(s) + Part(c)
  {
    CnAfterFirst(Str(base), [v, s, c]);
    assert [Str(base)] + [v, s, c] == [Str(base), v, s, c];
    PartsThree(v, s, c);
    ConcatAssoc(base, Part(v) + Part(s), Part(c));
    ConcatAssoc(base, Part(v), Part(s));
  }

  /** A falsy argument anywhere leaves the result unchanged. */
  lemma CnIgnoresFalsy(a: seq<Value>, f: Value, b: seq<Value>)
    requires !Truthy(f)
    ensures Cn(a + [f] + b) == Cn(a + b)
  {
    KeptAppend(a + [f], b);
    KeptAppend(a, [f]);
    KeptAppend(a, b);
    assert [f][..0] == [];
    assert Kept([f]) == [];
    assert Kept(a + [f] + b) == Kept(a + b);
  }

  /** The result depends only on the truthy arguments: any number of falsy
      arguments may be added or removed anywhere. */
  lemma CnDropsFalsy(args: seq<Value>)
    ensures Cn(TruthyArgs(args)) == Cn(args)
  {
    KeptOfTruthyArgs(args);
  }

  lemma CnSameTruthy(x: seq<Value>, y: seq<Value>)
    requires TruthyArgs(x) == TruthyArgs(y)
    ensures Cn(x) == Cn(y)
  {
    CnDropsFalsy(x);
    CnDropsFalsy(y);
  }

  /** One truthy argument among falsy ones comes back as its string form. */
  lemma CnSingle(pre: seq<Value>, v: Value, post: seq<Value>)
    requires forall i :: 0 <= i < |pre| ==> !Truthy(pre[i])
    requires forall i :: 0 <= i < |post| ==> !Truthy(post[i])
    requires Truthy(v)
    ensures Cn(pre + [v] + post) == ToString(v)
  {
    CnAppend(pre + [v], post);
    CnAppend(pre, [v]);
    CnOne(v);
  }

  /** When at least one argument is truthy and no class itself holds a space,
      splitting the result on spaces recovers the kept classes, one per truthy
      argument. */
  lemma CnSplit(args: seq<Value>)
    requires exists i :: 0 <= i < |args| && Truthy(args[i])
    requires forall i :: 0 <= i < |args| && Truthy(args[i]) ==> ' ' !in ToString(args[i])
    ensures Split(Cn(args)) == Kept(args)
  {
    KeptEmptyIff(args);
    KeptByPositions(args);
    SplitJoin(Kept(args));
  }

  /** Well-spaced classes compose into a well-spaced class string: `cn` adds
      no leading, trailing or doubled space of its own. */
  lemma CnWellSpaced(args: seq<Value>)
    requires forall i :: 0 <= i < |args| && Truthy(args[i]) ==> WellSpaced(ToString(args[i]))
    ensures WellSpaced(Cn(args))
  {
    KeptByPositions(args);
    JoinWellSpaced(Kept(args));
  }
}
