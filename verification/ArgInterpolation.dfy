/** `${NAME}` interpolation of Dockerfile ARG defaults (`parse_dockerfile_args` of generate_versions_json.py). */
module ArgInterpolation {
  import opened Wrappers

  // ---- What the code does, on strings ----

  datatype Arg = Arg(name: string, value: string)

  /** `s.replace(pat, rep)`: left to right, without rescanning what was put in. */
  function Replace(s: string, pat: string, rep: string): string
    requires pat != ""
  {
    if s == "" then ""
    else if pat <= s then rep + Replace(s[|pat|..], pat, rep)
    else [s[0]] + Replace(s[1..], pat, rep)
  }

  function Pattern(name: string): string {
    "${" + name + "}"
  }

  /** `"${" in s` */
  predicate HasOpen(s: string) {
    |s| >= 2 && ((s[0] == '$' && s[1] == '{') || HasOpen(s[1..]))
  }

  /** The inner loop: one replacement per argument, in dictionary order, starting with argument `i`. */
  function ReplaceFrom(args: seq<Arg>, value: string, i: nat): string
    requires i <= |args|
    decreases |args| - i
  {
    if i == |args| then value
    else ReplaceFrom(args, Replace(value, Pattern(args[i].name), args[i].value), i + 1)
  }

  function Interpolate(args: seq<Arg>, value: string): string {
    if HasOpen(value) then ReplaceFrom(args, value, 0) else value
  }

  ghost predicate DistinctNames(args: seq<Arg>) {
    forall i, j :: 0 <= i < j < |args| ==> args[i].name != args[j].name
  }

  /** The two loops keep exactly the arguments whose interpolated value has no reference left. */
  method Resolve(args: seq<Arg>) returns (resolved: map<string, string>)
    requires DistinctNames(args)
    ensures forall i :: 0 <= i < |args| ==>
      (args[i].name in resolved <==> !HasOpen(Interpolate(args, args[i].value)))
    ensures forall i :: 0 <= i < |args| && args[i].name in resolved ==>
      resolved[args[i].name] == Interpolate(args, args[i].value)
    ensures forall n :: n in resolved ==> exists i :: 0 <= i < |args| && args[i].name == n
  {
    resolved := map[];
    for i := 0 to |args|
      invariant forall k :: 0 <= k < i ==>
        (args[k].name in resolved <==> !HasOpen(Interpolate(args, args[k].value)))
      invariant forall k :: 0 <= k < i && args[k].name in resolved ==>
        resolved[args[k].name] == Interpolate(args, args[k].value)
      invariant forall n :: n in resolved ==> exists k :: 0 <= k < i && args[k].name == n
    {
      var value := ResolveOne(args, args[i].value);
      if !HasOpen(value) {
        resolved := resolved[args[i].name := value];
      }
    }
  }

  /** The inner loop with the test in front of it. */
  method ResolveOne(args: seq<Arg>, default: string) returns (value: string)
    ensures value == Interpolate(args, default)
  {
    value := default;
    if HasOpen(value) {
      for j := 0 to |args|
        invariant ReplaceFrom(args, value, j) == ReplaceFrom(args, default, 0)
      {
        value := Replace(value, Pattern(args[j].name), args[j].value);
      }
    }
  }

  // ---- What a value means: characters and references ----

  datatype Tok = Ch(c: char) | Ref(name: string)

  predicate PlainName(n: string) {
    !HasOpen(n) && '}' !in n
  }

  /** Reference names close where they should, and no `$` stands where an insertion could turn it into `${`. */
  predicate Clean(t: seq<Tok>) {
    t == [] ||
    (&& (t[0].Ref? ==> PlainName(t[0].name))
     && (t[0] == Ch('$') ==> |t| > 1 && t[1].Ch? && t[1].c != '{')
     && Clean(t[1..]))
  }

  function Render(t: seq<Tok>): string {
    if t == [] then ""
    else (match t[0] case Ch(c) => [c] case Ref(n) => Pattern(n)) + Render(t[1..])
  }

  predicate NoRefs(t: seq<Tok>) {
    forall i :: 0 <= i < |t| ==> t[i].Ch?
  }

  function Subst(t: seq<Tok>, name: string, rep: seq<Tok>): seq<Tok> {
    if t == [] then []
    else (if t[0] == Ref(name) then rep else [t[0]]) + Subst(t[1..], name, rep)
  }

  // ---- Replacement on strings is substitution of references ----

  lemma {:induction false} ReplaceSkips(a: string, b: string, pat: string, rep: string)
    requires pat != "" && pat[0] == '$' && '$' !in a
    ensures Replace(a + b, pat, rep) == a + Replace(b, pat, rep)
  {
    if a == "" {
      assert a + b == b;
    } else {
      assert (a + b)[0] == a[0] && (a + b)[1..] == a[1..] + b;
      ReplaceSkips(a[1..], b, pat, rep);
    }
  }

  lemma {:induction false} OpenBeforeClose(m: string)
    ensures HasOpen(m + "}") <==> HasOpen(m)
  {
    if m != "" {
      OpenBeforeClose(m[1..]);
      assert (m + "}")[1..] == m[1..] + "}";
    }
  }

  /** No `${` begins in `a`, whatever follows. */
  predicate Inert(a: string) {
    !HasOpen(a) && (a == "" || a[|a| - 1] != '$')
  }

  lemma {:induction false} SkipInert(a: string, b: string, n: string, rep: string)
    requires Inert(a)
    ensures Replace(a + b, Pattern(n), rep) == a + Replace(b, Pattern(n), rep)
  {
    if a == "" {
      assert a + b == b;
    } else {
      assert (a + b)[0] == a[0] && (a + b)[1..] == a[1..] + b;
      assert |a| > 1 ==> (a + b)[1] == a[1];
      assert Pattern(n)[0] == '$' && Pattern(n)[1] == '{';
      SkipInert(a[1..], b, n, rep);
    }
  }

  /** A pattern matches at the start of a rendered reference only if it is that reference. */
  lemma PatternMatches(n: string, m: string, rest: string)
    requires PlainName(n) && PlainName(m) && Pattern(n) <= Pattern(m) + rest
    ensures n == m
  {
    var p, s := Pattern(n), Pattern(m) + rest;
    assert forall k :: 0 <= k < |p| ==> p[k] == s[k];
    assert forall k :: 0 <= k < |n| ==> p[k + 2] == n[k];
    assert forall k :: 0 <= k < |m| ==> s[k + 2] == m[k];
    assert p[|n| + 2] == '}' && s[|m| + 2] == '}';
    assert |n| == |m|;
  }

  lemma {:induction false} ReplaceRender(t: seq<Tok>, n: string, rep: seq<Tok>)
    requires Clean(t) && PlainName(n)
    ensures Replace(Render(t), Pattern(n), Render(rep)) == Render(Subst(t, n, rep))
  {
    if t != [] {
      var pat, s, rest := Pattern(n), Render(t), Render(t[1..]);
      ReplaceRender(t[1..], n, rep);
      match t[0]
      case Ch(c) =>
        assert s[0] == c && s[1..] == rest;
        assert c == '$' ==> rest[0] == t[1].c;
        assert !(pat <= s);
        assert Subst(t, n, rep)[0] == t[0] && Subst(t, n, rep)[1..] == Subst(t[1..], n, rep);
      case Ref(m) =>
        if m == n {
          assert pat <= s && s[|pat|..] == rest;
          RenderConcat(rep, Subst(t[1..], n, rep));
        } else {
          SkipReference(m, rest, n, Render(rep));
          assert Subst(t, n, rep)[0] == t[0] && Subst(t, n, rep)[1..] == Subst(t[1..], n, rep);
        }
    }
  }

  lemma TailIsInert(m: string)
    requires PlainName(m)
    ensures Inert("{" + m + "}")
  {
    OpenBeforeClose(m);
    var tail := "{" + m + "}";
    assert tail[1..] == m + "}" && tail[0] == '{';
  }

  lemma SkipOne(c: char, more: string, pat: string, rep: string)
    requires pat != "" && !(pat <= [c] + more)
    ensures Replace([c] + more, pat, rep) == [c] + Replace(more, pat, rep)
  {
    assert ([c] + more)[1..] == more;
  }

  lemma PatternTail(m: string, rest: string)
    ensures Pattern(m) + rest == ['$'] + ("{" + m + "}" + rest)
  {
  }

  lemma SkipReference(m: string, rest: string, n: string, rep: string)
    requires PlainName(m) && PlainName(n) && m != n
    ensures Replace(Pattern(m) + rest, Pattern(n), rep) == Pattern(m) + Replace(rest, Pattern(n), rep)
  {
    if Pattern(n) <= Pattern(m) + rest {
      PatternMatches(n, m, rest);
    }
    PatternTail(m, rest);
    SkipOne('$', "{" + m + "}" + rest, Pattern(n), rep);
    TailIsInert(m);
    SkipInert("{" + m + "}", rest, n, rep);
    PatternTail(m, Replace(rest, Pattern(n), rep));
  }

  lemma {:induction false} RenderConcat(a: seq<Tok>, b: seq<Tok>)
    ensures Render(a + b) == Render(a) + Render(b)
  {
    if a == [] {
      assert a + b == b;
    } else {
      assert (a + b)[0] == a[0] && (a + b)[1..] == a[1..] + b;
      RenderConcat(a[1..], b);
    }
  }

  /** The textual test for `${` sees exactly the references. */
  lemma {:induction false} HasOpenRender(t: seq<Tok>)
    requires Clean(t)
    ensures HasOpen(Render(t)) <==> !NoRefs(t)
  {
    if t != [] {
      HasOpenRender(t[1..]);
      assert NoRefs(t) <==> t[0].Ch? && NoRefs(t[1..]) by {
        assert forall i :: 0 < i < |t| ==> t[i] == t[1..][i - 1];
      }
      var s, rest := Render(t), Render(t[1..]);
      match t[0]
      case Ch(c) =>
        assert s[0] == c && s[1..] == rest;
        assert c == '$' ==> rest[0] == t[1].c;
      case Ref(m) =>
        assert s[0] == '$' && s[1] == '{';
    }
  }

  lemma {:induction false} CleanConcat(a: seq<Tok>, b: seq<Tok>)
    requires Clean(a) && Clean(b)
    ensures Clean(a + b)
  {
    if a == [] {
      assert a + b == b;
    } else {
      assert (a + b)[0] == a[0] && (a + b)[1..] == a[1..] + b;
      CleanConcat(a[1..], b);
      assert a[0] == Ch('$') ==> (a + b)[1] == a[1];
    }
  }

  lemma {:induction false} SubstClean(t: seq<Tok>, n: string, rep: seq<Tok>)
    requires Clean(t) && Clean(rep)
    ensures Clean(Subst(t, n, rep))
  {
    if t != [] {
      SubstClean(t[1..], n, rep);
      var rest := Subst(t[1..], n, rep);
      if t[0] == Ref(n) {
        CleanConcat(rep, rest);
      } else {
        assert Subst(t, n, rep) == [t[0]] + rest && ([t[0]] + rest)[1..] == rest;
        if t[0] == Ch('$') {
          assert rest[0] == t[1];
        }
      }
    }
  }

  // ---- The dictionary ----

  datatype Def = Def(name: string, toks: seq<Tok>)

  ghost predicate CleanDefs(defs: seq<Def>) {
    && (forall i :: 0 <= i < |defs| ==> PlainName(defs[i].name) && Clean(defs[i].toks))
    && (forall i, j :: 0 <= i < j < |defs| ==> defs[i].name != defs[j].name)
  }

  function ArgsOf(defs: seq<Def>): (args: seq<Arg>)
    ensures |args| == |defs|
    ensures forall i :: 0 <= i < |defs| ==> args[i] == Arg(defs[i].name, Render(defs[i].toks))
  {
    seq(|defs|, i requires 0 <= i < |defs| => Arg(defs[i].name, Render(defs[i].toks)))
  }

  function Final(defs: seq<Def>, t: seq<Tok>, i: nat): seq<Tok>
    requires i <= |defs|
    decreases |defs| - i
  {
    if i == |defs| then t else Final(defs, Subst(t, defs[i].name, defs[i].toks), i + 1)
  }

  lemma {:induction false} ReplaceFromRender(defs: seq<Def>, t: seq<Tok>, i: nat)
    requires CleanDefs(defs) && Clean(t) && i <= |defs|
    ensures ReplaceFrom(ArgsOf(defs), Render(t), i) == Render(Final(defs, t, i))
    ensures Clean(Final(defs, t, i))
    decreases |defs| - i
  {
    if i < |defs| {
      ReplaceRender(t, defs[i].name, defs[i].toks);
      SubstClean(t, defs[i].name, defs[i].toks);
      ReplaceFromRender(defs, Subst(t, defs[i].name, defs[i].toks), i + 1);
    }
  }

  lemma {:induction false} SubstNoRefs(t: seq<Tok>, n: string, rep: seq<Tok>)
    requires NoRefs(t)
    ensures Subst(t, n, rep) == t
  {
    if t != [] {
      assert t[0].Ch?;
      assert forall i :: 0 <= i < |t[1..]| ==> t[1..][i] == t[i + 1];
      SubstNoRefs(t[1..], n, rep);
    }
  }

  lemma {:induction false} FinalNoRefs(defs: seq<Def>, t: seq<Tok>, i: nat)
    requires NoRefs(t) && i <= |defs|
    ensures Final(defs, t, i) == t
    decreases |defs| - i
  {
    if i < |defs| {
      SubstNoRefs(t, defs[i].name, defs[i].toks);
      FinalNoRefs(defs, t, i + 1);
    }
  }

  /** The string code computes the substitution of references, whatever the guard in front of the inner loop. */
  lemma {:induction false} InterpolateIsFinal(defs: seq<Def>, t: seq<Tok>)
    requires CleanDefs(defs) && Clean(t)
    ensures Interpolate(ArgsOf(defs), Render(t)) == Render(Final(defs, t, 0))
    ensures HasOpen(Interpolate(ArgsOf(defs), Render(t))) <==> !NoRefs(Final(defs, t, 0))
  {
    HasOpenRender(t);
    ReplaceFromRender(defs, t, 0);
    HasOpenRender(Final(defs, t, 0));
    if NoRefs(t) {
      FinalNoRefs(defs, t, 0);
    }
  }

  // ---- Which values are kept ----

  /** The first definition of `n` at or after index `i`, or `|defs|`. */
  function Find(defs: seq<Def>, n: string, i: nat): (k: nat)
    requires i <= |defs|
    ensures i <= k <= |defs|
    ensures k < |defs| ==> defs[k].name == n
    ensures forall j :: i <= j < k ==> defs[j].name != n
    decreases |defs| - i
  {
    if i == |defs| || defs[i].name == n then i else Find(defs, n, i + 1)
  }

  /** Every chain of references out of `t` climbs the dictionary order, starting at `i`, and never leaves it. */
  predicate Ascends(defs: seq<Def>, t: seq<Tok>, i: nat)
    requires i <= |defs|
    decreases |defs| - i, |t|
  {
    t == [] ||
    (match t[0]
     case Ch(_) => Ascends(defs, t[1..], i)
     case Ref(m) =>
       var k := Find(defs, m, i);
       k < |defs| && Ascends(defs, defs[k].toks, k + 1) && Ascends(defs, t[1..], i))
  }

  lemma {:induction false} AscendsConcat(defs: seq<Def>, a: seq<Tok>, b: seq<Tok>, i: nat)
    requires i <= |defs|
    ensures Ascends(defs, a + b, i) <==> Ascends(defs, a, i) && Ascends(defs, b, i)
    decreases |a|
  {
    if a == [] {
      assert a + b == b;
    } else {
      assert (a + b)[0] == a[0] && (a + b)[1..] == a[1..] + b;
      AscendsConcat(defs, a[1..], b, i);
    }
  }

  lemma {:induction false} AscendsSubst(defs: seq<Def>, t: seq<Tok>, i: nat)
    requires i < |defs|
    ensures Ascends(defs, Subst(t, defs[i].name, defs[i].toks), i + 1) <==> Ascends(defs, t, i)
    decreases |t|
  {
    if t != [] {
      AscendsSubst(defs, t[1..], i);
      var rest := Subst(t[1..], defs[i].name, defs[i].toks);
      if t[0] == Ref(defs[i].name) {
        AscendsConcat(defs, defs[i].toks, rest, i + 1);
      } else {
        assert Subst(t, defs[i].name, defs[i].toks) == [t[0]] + rest && ([t[0]] + rest)[1..] == rest;
      }
    }
  }

  lemma {:induction false} AscendsAtEnd(defs: seq<Def>, t: seq<Tok>)
    ensures Ascends(defs, t, |defs|) <==> NoRefs(t)
  {
    if t != [] {
      AscendsAtEnd(defs, t[1..]);
      assert NoRefs(t) <==> t[0].Ch? && NoRefs(t[1..]) by {
        assert forall i :: 0 < i < |t| ==> t[i] == t[1..][i - 1];
      }
    }
  }

  lemma {:induction false} FinalAscends(defs: seq<Def>, t: seq<Tok>, i: nat)
    requires i <= |defs|
    ensures NoRefs(Final(defs, t, i)) <==> Ascends(defs, t, i)
    decreases |defs| - i
  {
    if i == |defs| {
      AscendsAtEnd(defs, t);
    } else {
      FinalAscends(defs, Subst(t, defs[i].name, defs[i].toks), i + 1);
      AscendsSubst(defs, t, i);
    }
  }

  /** A value is kept if and only if its references, followed through the dictionary, only ever climb its order. */
  lemma {:induction false} KeptExactly(defs: seq<Def>, t: seq<Tok>)
    requires CleanDefs(defs) && Clean(t)
    ensures !HasOpen(Interpolate(ArgsOf(defs), Render(t))) <==> Ascends(defs, t, 0)
  {
    InterpolateIsFinal(defs, t);
    FinalAscends(defs, t, 0);
  }

  // ---- What a kept value is ----

  /** The recursive expansion: None when a name is undefined or the references nest deeper than `fuel`. */
  function Expand(defs: seq<Def>, t: seq<Tok>, fuel: nat): Option<seq<Tok>>
    decreases fuel, |t|
  {
    if t == [] then Some([])
    else
      var head :=
        match t[0]
        case Ch(c) => Some([Ch(c)])
        case Ref(m) =>
          var k := Find(defs, m, 0);
          if fuel == 0 || k == |defs| then None else Expand(defs, defs[k].toks, fuel - 1);
      var tail := Expand(defs, t[1..], fuel);
      if head.None? || tail.None? then None else Some(head.value + tail.value)
  }

  /** More fuel does not change an expansion, so the expansion of a value is unique. */
  lemma {:induction false} ExpandMore(defs: seq<Def>, t: seq<Tok>, fuel: nat)
    requires Expand(defs, t, fuel).Some?
    ensures Expand(defs, t, fuel + 1) == Expand(defs, t, fuel)
    decreases fuel, |t|
  {
    if t != [] {
      ExpandMore(defs, t[1..], fuel);
      if t[0].Ref? {
        ExpandMore(defs, defs[Find(defs, t[0].name, 0)].toks, fuel - 1);
      }
    }
  }

  lemma {:induction false} ExpandConcat(defs: seq<Def>, a: seq<Tok>, b: seq<Tok>, fuel: nat)
    ensures Expand(defs, a + b, fuel).Some? <==> Expand(defs, a, fuel).Some? && Expand(defs, b, fuel).Some?
    ensures Expand(defs, a + b, fuel).Some? ==>
      Expand(defs, a + b, fuel).value == Expand(defs, a, fuel).value + Expand(defs, b, fuel).value
    decreases |a|
  {
    if a == [] {
      assert a + b == b;
    } else {
      assert (a + b)[0] == a[0] && (a + b)[1..] == a[1..] + b;
      ExpandConcat(defs, a[1..], b, fuel);
    }
  }

  lemma ExpandSubstOne(defs: seq<Def>, x: Tok, i: nat, fuel: nat)
    requires CleanDefs(defs) && i < |defs|
    requires Expand(defs, if x == Ref(defs[i].name) then defs[i].toks else [x], fuel).Some?
    ensures Expand(defs, [x], fuel + 1) == Expand(defs, if x == Ref(defs[i].name) then defs[i].toks else [x], fuel)
  {
    if x == Ref(defs[i].name) {
      assert Find(defs, defs[i].name, 0) == i;
      var toks := Expand(defs, defs[i].toks, fuel).value;
      assert [x][1..] == [] && toks + [] == toks;
    } else {
      ExpandMore(defs, [x], fuel);
    }
  }

  lemma ExpandPair(defs: seq<Def>, a: seq<Tok>, b: seq<Tok>, c: seq<Tok>, d: seq<Tok>, fuel: nat)
    requires Expand(defs, a + b, fuel).Some?
    requires Expand(defs, c, fuel + 1) == Expand(defs, a, fuel) && Expand(defs, d, fuel + 1) == Expand(defs, b, fuel)
    ensures Expand(defs, c + d, fuel + 1) == Expand(defs, a + b, fuel)
  {
    ExpandConcat(defs, a, b, fuel);
    ExpandConcat(defs, c, d, fuel + 1);
  }

  /** One pass of the inner loop does not change what a value expands to. */
  lemma {:induction false} ExpandSubst(defs: seq<Def>, t: seq<Tok>, i: nat, fuel: nat)
    requires CleanDefs(defs) && i < |defs|
    requires Expand(defs, Subst(t, defs[i].name, defs[i].toks), fuel).Some?
    ensures Expand(defs, t, fuel + 1) == Expand(defs, Subst(t, defs[i].name, defs[i].toks), fuel)
    decreases |t|
  {
    if t != [] {
      var head := if t[0] == Ref(defs[i].name) then defs[i].toks else [t[0]];
      var rest := Subst(t[1..], defs[i].name, defs[i].toks);
      assert Subst(t, defs[i].name, defs[i].toks) == head + rest && [t[0]] + t[1..] == t;
      ExpandConcat(defs, head, rest, fuel);
      ExpandSubstOne(defs, t[0], i, fuel);
      ExpandSubst(defs, t[1..], i, fuel);
      ExpandPair(defs, head, rest, [t[0]], t[1..], fuel);
    }
  }

  lemma {:induction false} ExpandNoRefs(defs: seq<Def>, t: seq<Tok>)
    requires NoRefs(t)
    ensures Expand(defs, t, 0) == Some(t)
  {
    if t != [] {
      assert t[0].Ch?;
      assert forall i :: 0 <= i < |t[1..]| ==> t[1..][i] == t[i + 1];
      ExpandNoRefs(defs, t[1..]);
      assert [t[0]] + t[1..] == t;
    }
  }

  lemma {:induction false} FinalIsExpansion(defs: seq<Def>, t: seq<Tok>, i: nat)
    requires CleanDefs(defs) && i <= |defs| && NoRefs(Final(defs, t, i))
    ensures Expand(defs, t, |defs| - i) == Some(Final(defs, t, i))
    decreases |defs| - i
  {
    if i == |defs| {
      ExpandNoRefs(defs, t);
    } else {
      FinalIsExpansion(defs, Subst(t, defs[i].name, defs[i].toks), i + 1);
      ExpandSubst(defs, t, i, |defs| - i - 1);
    }
  }

  /** Sound for any order and any cycles: a kept value is the recursive expansion of its default. */
  lemma {:induction false} KeptIsExpansion(defs: seq<Def>, t: seq<Tok>)
    requires CleanDefs(defs) && Clean(t) && !HasOpen(Interpolate(ArgsOf(defs), Render(t)))
    ensures Expand(defs, t, |defs|).Some?
    ensures Interpolate(ArgsOf(defs), Render(t)) == Render(Expand(defs, t, |defs|).value)
  {
    InterpolateIsFinal(defs, t);
    FinalIsExpansion(defs, t, 0);
  }

  // ---- Orders that keep everything, and one that does not ----

  predicate RefsFrom(defs: seq<Def>, t: seq<Tok>, i: nat)
    requires i <= |defs|
  {
    forall k :: 0 <= k < |t| && t[k].Ref? ==> i <= Find(defs, t[k].name, 0) < |defs|
  }

  ghost predicate ForwardOnly(defs: seq<Def>) {
    forall j :: 0 <= j < |defs| ==> RefsFrom(defs, defs[j].toks, j + 1)
  }

  predicate RefsLiteral(defs: seq<Def>, t: seq<Tok>)
    requires RefsFrom(defs, t, 0)
  {
    forall k :: 0 <= k < |t| && t[k].Ref? ==> NoRefs(defs[Find(defs, t[k].name, 0)].toks)
  }

  ghost predicate LiteralsOnly(defs: seq<Def>) {
    forall j :: 0 <= j < |defs| ==> RefsFrom(defs, defs[j].toks, 0) && RefsLiteral(defs, defs[j].toks)
  }

  lemma FindFrom(defs: seq<Def>, n: string, i: nat)
    requires i <= Find(defs, n, 0) < |defs|
    ensures Find(defs, n, i) == Find(defs, n, 0)
  {
    var k, k' := Find(defs, n, 0), Find(defs, n, i);
    assert k <= k';
    assert !(k < k');
  }

  lemma {:induction false} ForwardAscends(defs: seq<Def>, t: seq<Tok>, i: nat)
    requires ForwardOnly(defs) && i <= |defs| && RefsFrom(defs, t, i)
    ensures Ascends(defs, t, i)
    decreases |defs| - i, |t|
  {
    if t != [] {
      assert forall k :: 0 <= k < |t[1..]| ==> t[1..][k] == t[k + 1];
      ForwardAscends(defs, t[1..], i);
      if t[0].Ref? {
        FindFrom(defs, t[0].name, i);
        var k := Find(defs, t[0].name, i);
        ForwardAscends(defs, defs[k].toks, k + 1);
      }
    }
  }

  lemma {:induction false} NoRefsAscends(defs: seq<Def>, t: seq<Tok>, i: nat)
    requires NoRefs(t) && i <= |defs|
    ensures Ascends(defs, t, i)
  {
    if t != [] {
      assert t[0].Ch?;
      assert forall k :: 0 <= k < |t[1..]| ==> t[1..][k] == t[k + 1];
      NoRefsAscends(defs, t[1..], i);
    }
  }

  lemma {:induction false} LiteralAscends(defs: seq<Def>, t: seq<Tok>)
    requires RefsFrom(defs, t, 0) && RefsLiteral(defs, t)
    ensures Ascends(defs, t, 0)
  {
    if t != [] {
      assert forall k :: 0 <= k < |t[1..]| ==> t[1..][k] == t[k + 1];
      LiteralAscends(defs, t[1..]);
      if t[0].Ref? {
        var k := Find(defs, t[0].name, 0);
        NoRefsAscends(defs, defs[k].toks, k + 1);
      }
    }
  }

  /** When references point only to later names, or only to literals, every argument is kept. */
  lemma {:induction false} EverythingKept(defs: seq<Def>, j: nat)
    requires CleanDefs(defs) && j < |defs| && (ForwardOnly(defs) || LiteralsOnly(defs))
    ensures !HasOpen(Interpolate(ArgsOf(defs), Render(defs[j].toks)))
  {
    KeptExactly(defs, defs[j].toks);
    if ForwardOnly(defs) {
      ForwardAscends(defs, defs[j].toks, 0);
    } else {
      LiteralAscends(defs, defs[j].toks);
    }
  }

  /** Two references deep in the usual order, definition before use: C has an expansion but is dropped. */
  lemma BackwardChainIsDropped()
    ensures var defs := [Def("A", [Ch('x')]), Def("B", [Ref("A")]), Def("C", [Ref("B")])];
      && Expand(defs, defs[2].toks, 2) == Some([Ch('x')])
      && HasOpen(Interpolate(ArgsOf(defs), Render(defs[2].toks)))
  {
    var a, b, c := Def("A", [Ch('x')]), Def("B", [Ref("A")]), Def("C", [Ref("B")]);
    var defs := [a, b, c];
    assert "A"[0] != "B"[0] && "B"[0] != "C"[0] && "A"[0] != "C"[0];
    assert Find(defs, "A", 0) == 0;
    assert Find(defs, "B", 0) == 1;
    assert a.toks[1..] == [] && b.toks[1..] == [] && c.toks[1..] == [];
    ExpandNoRefs(defs, a.toks);
    assert Expand(defs, b.toks, 1) == Some([Ch('x')]);
    assert Find(defs, "A", 2) == 3;
    assert !Ascends(defs, b.toks, 2);
    assert Clean(a.toks) && Clean(b.toks) && Clean(c.toks);
    KeptExactly(defs, c.toks);
  }

  // ---- The same on the text that the code receives ----

  /** The first index of '}' at or after `i`, or the length. */
  function CloseAt(s: string, i: nat): (k: nat)
    requires i <= |s|
    ensures i <= k <= |s|
    ensures k < |s| ==> s[k] == '}'
    ensures forall j :: i <= j < k ==> s[j] != '}'
    decreases |s| - i
  {
    if i == |s| || s[i] == '}' then i else CloseAt(s, i + 1)
  }

  /** Read text as characters and references; None when it is not clean. */
  function Parse(s: string): Option<seq<Tok>>
    decreases |s|
  {
    if s == "" then Some([])
    else if s[0] == '$' && |s| > 1 && s[1] == '{' then
      var k := CloseAt(s, 2);
      if k == |s| || HasOpen(s[2..k]) then None
      else
        match Parse(s[k + 1..])
        case None => None
        case Some(rest) => Some([Ref(s[2..k])] + rest)
    else
      match Parse(s[1..])
      case None => None
      case Some(rest) =>
        if s[0] == '$' && (rest == [] || rest[0].Ref?) then None else Some([Ch(s[0])] + rest)
  }

  lemma RenderCons(x: Tok, rest: seq<Tok>)
    ensures Render([x] + rest) == Render([x]) + Render(rest)
    ensures Clean([x] + rest) <==>
      && (x.Ref? ==> PlainName(x.name))
      && (x == Ch('$') ==> rest != [] && rest[0].Ch? && rest[0].c != '{')
      && Clean(rest)
  {
    assert ([x] + rest)[1..] == rest && [x][1..] == [];
    assert Render([x]) == (match x case Ch(c) => [c] case Ref(n) => Pattern(n));
  }

  lemma PatternSplit(s: string, k: nat)
    requires 2 <= k < |s| && s[0] == '$' && s[1] == '{' && s[k] == '}'
    ensures s == Pattern(s[2..k]) + s[k + 1..]
  {
    var t := Pattern(s[2..k]) + s[k + 1..];
    assert |t| == |s|;
    assert forall j :: 0 <= j < |s| ==> s[j] == t[j];
  }

  lemma ParseReference(s: string, k: nat)
    requires |s| > 1 && s[0] == '$' && s[1] == '{' && k == CloseAt(s, 2) && Parse(s).Some?
    ensures k < |s| && PlainName(s[2..k]) && Parse(s[k + 1..]).Some?
    ensures Parse(s).value == [Ref(s[2..k])] + Parse(s[k + 1..]).value
    ensures s == Pattern(s[2..k]) + s[k + 1..]
  {
    PatternSplit(s, k);
  }

  lemma ParseChar(s: string)
    requires s != "" && !(|s| > 1 && s[0] == '$' && s[1] == '{') && Parse(s).Some?
    ensures Parse(s[1..]).Some? && Parse(s).value == [Ch(s[0])] + Parse(s[1..]).value
    ensures s[0] == '$' ==> Parse(s[1..]).value != [] && Parse(s[1..]).value[0].Ch?
    ensures s == [s[0]] + s[1..]
  {
  }

  lemma FirstChar(t: seq<Tok>)
    requires t != [] && t[0].Ch?
    ensures Render(t) != "" && Render(t)[0] == t[0].c
  {
  }

  lemma {:induction false} ParseIsClean(s: string)
    requires Parse(s).Some?
    ensures Clean(Parse(s).value) && Render(Parse(s).value) == s
    decreases |s|
  {
    if s == "" {
    } else if |s| > 1 && s[0] == '$' && s[1] == '{' {
      var k := CloseAt(s, 2);
      ParseReference(s, k);
      ParseIsClean(s[k + 1..]);
      RenderCons(Ref(s[2..k]), Parse(s[k + 1..]).value);
    } else {
      ParseChar(s);
      ParseIsClean(s[1..]);
      var rest := Parse(s[1..]).value;
      RenderCons(Ch(s[0]), rest);
      if s[0] == '$' {
        FirstChar(rest);
      }
    }
  }

  lemma {:induction false} ParseRender(t: seq<Tok>)
    requires Clean(t)
    ensures Parse(Render(t)) == Some(t)
    decreases |t|
  {
    if t != [] {
      ParseRender(t[1..]);
      var s, rest := Render(t), Render(t[1..]);
      assert [t[0]] + t[1..] == t;
      match t[0]
      case Ch(c) =>
        assert s[0] == c && s[1..] == rest;
        assert c == '$' ==> rest[0] == t[1].c;
      case Ref(m) =>
        ReadReference(m, rest);
    }
  }

  lemma ReadReference(m: string, rest: string)
    requires PlainName(m)
    ensures var s, k := Pattern(m) + rest, |m| + 2;
      && |s| > k && s[0] == '$' && s[1] == '{' && CloseAt(s, 2) == k && s[2..k] == m && s[k + 1..] == rest
  {
    var s := Pattern(m) + rest;
    assert forall j :: 0 <= j < |m| ==> s[j + 2] == m[j];
    assert s[|m| + 2] == '}';
    assert forall j :: 2 <= j < |m| + 2 ==> s[j] == m[j - 2] != '}';
  }

  /** What a caller can check: plain distinct names and values that parse. */
  ghost predicate TidyArgs(args: seq<Arg>) {
    && DistinctNames(args)
    && forall i :: 0 <= i < |args| ==> PlainName(args[i].name) && Parse(args[i].value).Some?
  }

  function DefsOf(args: seq<Arg>): (defs: seq<Def>)
    requires forall i :: 0 <= i < |args| ==> Parse(args[i].value).Some?
    ensures |defs| == |args|
    ensures forall i :: 0 <= i < |args| ==> defs[i] == Def(args[i].name, Parse(args[i].value).value)
  {
    seq(|args|, i requires 0 <= i < |args| => Def(args[i].name, Parse(args[i].value).value))
  }

  lemma TidyIsClean(args: seq<Arg>)
    requires TidyArgs(args)
    ensures CleanDefs(DefsOf(args)) && ArgsOf(DefsOf(args)) == args
  {
    forall i | 0 <= i < |args|
      ensures Clean(DefsOf(args)[i].toks) && ArgsOf(DefsOf(args))[i] == args[i]
    {
      ParseIsClean(args[i].value);
    }
  }

  /**
   * What the loops keep, on text: an argument is kept if and only if its references only climb the dictionary
   * order, and then its value is the recursive expansion of its default.
   */
  lemma {:induction false} ResolvedExactly(args: seq<Arg>, i: nat)
    requires TidyArgs(args) && i < |args|
    ensures var defs, value := DefsOf(args), Interpolate(args, args[i].value);
      && (!HasOpen(value) <==> Ascends(defs, defs[i].toks, 0))
      && (!HasOpen(value) ==>
            Expand(defs, defs[i].toks, |defs|).Some? && value == Render(Expand(defs, defs[i].toks, |defs|).value))
  {
    var defs := DefsOf(args);
    TidyIsClean(args);
    ParseIsClean(args[i].value);
    KeptExactly(defs, defs[i].toks);
    if !HasOpen(Interpolate(args, args[i].value)) {
      KeptIsExpansion(defs, defs[i].toks);
    }
  }

  /** With references only to later names, or only to literals, every argument of a tidy dictionary is kept. */
  lemma {:induction false} EverythingResolved(args: seq<Arg>, i: nat)
    requires TidyArgs(args) && i < |args| && (ForwardOnly(DefsOf(args)) || LiteralsOnly(DefsOf(args)))
    ensures !HasOpen(Interpolate(args, args[i].value))
  {
    TidyIsClean(args);
    ParseIsClean(args[i].value);
    EverythingKept(DefsOf(args), i);
  }

  // ---- Outside the tidy dictionaries ----

  /**
   * A default that ends in "$" does not parse, and breaks the law: before "{B}" it forms a reference that no
   * default contains, and a later pass replaces it, whatever stands before the "$" and whatever B is.
   */
  lemma InsertionFormsReference(p: string, x: string)
    requires '$' !in p
    ensures Parse(p + "$") == None
    ensures Interpolate([Arg("A", p + "$"), Arg("B", x)], "${A}{B}") == p + x
  {
    var args := [Arg("A", p + "$"), Arg("B", x)];
    TrailingDollar(p);
    ReplaceAtStart("A", "{B}", p + "$");
    assert Pattern("A") + "{B}" == "${A}{B}" && p + "$" + "{B}" == p + Pattern("B");
    assert "${A}{B}"[0] == '$' && "${A}{B}"[1] == '{';
    ReplaceSkips("{B}", "", Pattern("A"), p + "$");
    assert "{B}" + "" == "{B}";
    ReplaceSkips(p, Pattern("B"), Pattern("B"), x);
    ReplaceAtStart("B", "", x);
    assert Pattern("B") + "" == Pattern("B") && x + "" == x;
    assert ReplaceFrom(args, p + x, 2) == p + x;
    assert ReplaceFrom(args, p + Pattern("B"), 1) == p + x;
  }

  lemma ReplaceAtStart(n: string, rest: string, rep: string)
    ensures Replace(Pattern(n) + rest, Pattern(n), rep) == rep + Replace(rest, Pattern(n), rep)
  {
    assert (Pattern(n) + rest)[|Pattern(n)|..] == rest;
  }

  lemma {:induction false} TrailingDollar(p: string)
    requires '$' !in p
    ensures Parse(p + "$") == None
  {
    var s := p + "$";
    if p == "" {
      assert s[1..] == "" && Parse(s[1..]) == Some([]);
    } else {
      assert s[1..] == p[1..] + "$" && s[0] == p[0];
      TrailingDollar(p[1..]);
    }
  }

  /** The same through "$" before a reference, on the loop: C has no such expansion but is kept as "x". */
  lemma DollarBeforeReference()
    ensures Interpolate([Arg("A", "{B}"), Arg("B", "x"), Arg("C", "$${A}")], "$${A}") == "x"
  {
    var args := [Arg("A", "{B}"), Arg("B", "x"), Arg("C", "$${A}")];
    var s := "$${A}";
    assert s[0] == '$' && s[1] == '$' && s[1..] == "${A}" == Pattern("A");
    assert "${A}"[0] == '$' && "${A}"[1] == '{';
    assert HasOpen(s[1..]) && HasOpen(s);
    assert !(Pattern("A") <= s);
    ReplaceAtStart("A", "", "{B}");
    assert Pattern("A") + "" == Pattern("A") && "{B}" + "" == "{B}";
    assert Replace(s, Pattern("A"), "{B}") == ['$'] + "{B}" == Pattern("B");
    ReplaceAtStart("B", "", "x");
    assert Pattern("B") + "" == Pattern("B") && "x" + "" == "x";
    assert Replace(Pattern("B"), Pattern("B"), "x") == "x";
    ReplaceSkips("x", "", Pattern("C"), "$${A}");
    assert "x" + "" == "x" && Replace("x", Pattern("C"), "$${A}") == "x";
    assert ReplaceFrom(args, "x", 3) == "x" && ReplaceFrom(args, "x", 2) == "x";
    assert ReplaceFrom(args, Pattern("B"), 1) == "x";
  }
}
