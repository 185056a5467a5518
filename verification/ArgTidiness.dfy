/** Exactly which text is safe to interpolate: the text that `Parse` reads. */
module ArgTidiness {
  import opened Wrappers
  import opened ArgInterpolation

  predicate Occurs(pat: string, s: string) {
    pat <= s || (s != "" && Occurs(pat, s[1..]))
  }

  /**
   * Argument `b` is referred to by neither `v` nor a value of `args`, and all of these parse, except that `s` may
   * be one of them.
   */
  ghost predicate Setting(s: string, args: seq<Arg>, b: string, v: string) {
    && DistinctNames(args) && PlainName(b)
    && (v == s || Parse(v).Some?) && !Occurs(Pattern(b), v)
    && (forall i :: 0 <= i < |args| ==>
          && PlainName(args[i].name) && args[i].name != b
          && (args[i].value == s || Parse(args[i].value).Some?) && !Occurs(Pattern(b), args[i].value))
  }

  /** With `s` among the values, an argument that nothing refers to does not matter. */
  ghost predicate IgnoresUnreferenced(s: string) {
    forall args, b, v, x, y :: Setting(s, args, b, v) ==> Same(args, b, v, x, y)
  }

  ghost predicate Same(args: seq<Arg>, b: string, v: string, x: string, y: string) {
    Interpolate(args + [Arg(b, x)], v) == Interpolate(args + [Arg(b, y)], v)
  }

  // ---- Text that parses ----

  function Chars(s: string): (t: seq<Tok>)
    ensures |t| == |s| && forall i :: 0 <= i < |s| ==> t[i] == Ch(s[i])
  {
    seq(|s|, i requires 0 <= i < |s| => Ch(s[i]))
  }

  lemma {:induction false} RenderChars(s: string)
    ensures Render(Chars(s)) == s
    ensures '$' !in s ==> Clean(Chars(s))
  {
    if s != "" {
      RenderChars(s[1..]);
      assert Chars(s)[1..] == Chars(s[1..]);
    }
  }

  lemma {:induction false} ReferenceOccurs(t: seq<Tok>, b: string)
    requires Ref(b) in t
    ensures Occurs(Pattern(b), Render(t))
  {
    var s, rest := Render(t), Render(t[1..]);
    if t[0] == Ref(b) {
      assert Pattern(b) <= s;
    } else {
      ReferenceOccurs(t[1..], b);
      OccursAfter(match t[0] case Ch(c) => [c] case Ref(n) => Pattern(n), rest, Pattern(b));
    }
  }

  lemma {:induction false} OccursAfter(a: string, c: string, pat: string)
    requires Occurs(pat, c)
    ensures Occurs(pat, a + c)
  {
    if a == "" {
      assert a + c == c;
    } else {
      assert (a + c)[1..] == a[1..] + c;
      OccursAfter(a[1..], c, pat);
    }
  }

  lemma {:induction false} SubstUnreferenced(t: seq<Tok>, b: string, rep: seq<Tok>)
    requires Ref(b) !in t
    ensures Subst(t, b, rep) == t
  {
    if t != [] {
      SubstUnreferenced(t[1..], b, rep);
      assert [t[0]] + t[1..] == t;
    }
  }

  lemma {:induction false} SubstBringsNone(t: seq<Tok>, n: string, rep: seq<Tok>, b: string)
    requires Ref(b) !in t && Ref(b) !in rep
    ensures Ref(b) !in Subst(t, n, rep)
  {
    if t != [] {
      SubstBringsNone(t[1..], n, rep, b);
    }
  }

  lemma {:induction false} FinalBringsNone(defs: seq<Def>, t: seq<Tok>, i: nat, b: string)
    requires i <= |defs| && Ref(b) !in t && forall k :: 0 <= k < |defs| ==> Ref(b) !in defs[k].toks
    ensures Ref(b) !in Final(defs, t, i)
    decreases |defs| - i
  {
    if i < |defs| {
      SubstBringsNone(t, defs[i].name, defs[i].toks, b);
      FinalBringsNone(defs, Subst(t, defs[i].name, defs[i].toks), i + 1, b);
    }
  }

  lemma {:induction false} ReplaceFromLast(args: seq<Arg>, last: Arg, v: string, i: nat)
    requires i <= |args|
    ensures ReplaceFrom(args + [last], v, i) == Replace(ReplaceFrom(args, v, i), Pattern(last.name), last.value)
    decreases |args| - i
  {
    var all := args + [last];
    if i < |args| {
      assert all[i] == args[i];
      ReplaceFromLast(args, last, Replace(v, Pattern(args[i].name), args[i].value), i + 1);
    } else {
      assert all[i] == last;
      assert ReplaceFrom(all, Replace(v, Pattern(last.name), last.value), i + 1)
          == Replace(v, Pattern(last.name), last.value);
    }
  }

  /** In a tidy dictionary a last argument that nothing refers to changes nothing. */
  lemma UnreferencedIsIgnored(args: seq<Arg>, b: string, v: string, x: string)
    requires TidyArgs(args) && PlainName(b) && Parse(v).Some? && !Occurs(Pattern(b), v)
    requires forall i :: 0 <= i < |args| ==> !Occurs(Pattern(b), args[i].value)
    ensures Interpolate(args + [Arg(b, x)], v) == Interpolate(args, v)
  {
    var defs, t := DefsOf(args), Parse(v).value;
    TidyIsClean(args);
    ParseIsClean(v);
    if Ref(b) in t {
      ReferenceOccurs(t, b);
    }
    forall k | 0 <= k < |defs|
      ensures Ref(b) !in defs[k].toks
    {
      ParseIsClean(args[k].value);
      if Ref(b) in defs[k].toks {
        ReferenceOccurs(defs[k].toks, b);
      }
    }
    var u := Final(defs, t, 0);
    ReplaceFromRender(defs, t, 0);
    FinalBringsNone(defs, t, 0, b);
    RenderChars(x);
    ReplaceRender(u, b, Chars(x));
    SubstUnreferenced(u, b, Chars(x));
    ReplaceFromLast(args, Arg(b, x), v, 0);
  }

  // ---- Replacing text ----

  lemma {:induction false} OccursBetween(a: string, pat: string, c: string)
    ensures Occurs(pat, a + pat + c)
  {
    var s := a + pat + c;
    if a == "" {
      assert pat <= s;
    } else {
      OccursBetween(a[1..], pat, c);
      assert s[1..] == a[1..] + pat + c;
    }
  }

  lemma {:induction false} TooLong(pat: string, s: string)
    requires |s| < |pat|
    ensures !Occurs(pat, s)
  {
    if s != "" {
      TooLong(pat, s[1..]);
    }
  }

  lemma {:induction false} NoDollar(b: string, s: string)
    requires '$' !in s
    ensures !Occurs(Pattern(b), s)
  {
    assert Pattern(b)[0] == '$';
    if s != "" {
      NoDollar(b, s[1..]);
    }
  }

  lemma {:induction false} ReplaceGrows(s: string, pat: string, x: string, y: string)
    requires pat != "" && |x| < |y|
    ensures |Replace(s, pat, x)| <= |Replace(s, pat, y)|
    ensures Occurs(pat, s) ==> |Replace(s, pat, x)| < |Replace(s, pat, y)|
    decreases |s|
  {
    if s != "" {
      if pat <= s {
        ReplaceGrows(s[|pat|..], pat, x, y);
      } else {
        ReplaceGrows(s[1..], pat, x, y);
      }
    }
  }

  lemma {:induction false} ReplaceSuffix(a: string, z: string, n: string, r: string)
    requires '}' !in z
    ensures Replace(a + z, Pattern(n), r) == Replace(a, Pattern(n), r) + z
    decreases |a| + |z|
  {
    var pat, s := Pattern(n), a + z;
    if s == "" {
    } else if pat <= s {
      assert s[|pat| - 1] == pat[|pat| - 1] == '}';
      assert |pat| <= |a| && pat <= a && s[|pat|..] == a[|pat|..] + z;
      ReplaceSuffix(a[|pat|..], z, n, r);
    } else if a == "" {
      assert s == z && s[1..] == "" + z[1..];
      ReplaceSuffix("", z[1..], n, r);
    } else {
      assert s[0] == a[0] && s[1..] == a[1..] + z;
      assert pat <= a ==> pat <= s;
      ReplaceSuffix(a[1..], z, n, r);
    }
  }

  lemma {:induction false} OpenAt(s: string, j: nat)
    requires j + 1 < |s| && s[j] == '$' && s[j + 1] == '{'
    ensures HasOpen(s)
  {
    if j > 0 {
      OpenAt(s[1..], j - 1);
    }
  }

  /** Two occurrences of a pattern do not overlap. */
  lemma NoOverlap(n: string, k: nat)
    requires PlainName(n) && 0 < k < |Pattern(n)|
    ensures Pattern(n)[k] != '$' || (k + 1 < |Pattern(n)| && Pattern(n)[k + 1] != '{')
  {
    var pat := Pattern(n);
    assert forall i :: 0 <= i < |n| ==> pat[i + 2] == n[i];
    assert pat[1] == '{' && pat[|n| + 2] == '}';
    if pat[k] == '$' && pat[k + 1] == '{' {
      OpenAt(n, k - 2);
    }
  }

  lemma MatchIsInside(a: string, n: string, c: string)
    requires PlainName(n) && a != "" && Pattern(n) <= a + Pattern(n) + c
    ensures |Pattern(n)| <= |a|
  {
    var pat, s := Pattern(n), a + Pattern(n) + c;
    assert forall k :: 0 <= k < |pat| ==> s[k] == pat[k];
    assert s[|a|] == pat[0] && s[|a| + 1] == pat[1];
    if |a| < |pat| {
      NoOverlap(n, |a|);
    }
  }

  lemma {:induction false} ReplaceSplit(a: string, n: string, c: string, r: string)
    requires PlainName(n)
    ensures Replace(a + Pattern(n) + c, Pattern(n), r)
      == Replace(a, Pattern(n), r) + r + Replace(c, Pattern(n), r)
    decreases |a|
  {
    var pat, s := Pattern(n), a + Pattern(n) + c;
    if a == "" {
      assert pat <= s && s[|pat|..] == c;
    } else if pat <= s {
      MatchIsInside(a, n, c);
      assert pat <= a && s[|pat|..] == a[|pat|..] + pat + c;
      ReplaceSplit(a[|pat|..], n, c, r);
    } else {
      assert pat <= a ==> pat <= s;
      assert s[0] == a[0] && s[1..] == a[1..] + pat + c;
      ReplaceSplit(a[1..], n, c, r);
    }
  }

  // ---- What keeps text from parsing ----

  /** The text ends in `$`, has `$` before a reference, an unclosed `${`, or a `${` inside a reference. */
  datatype Flaw =
    | Trailing(u: string)
    | Dollar(u: string, m: string, w: string)
    | Unclosed(u: string, n: string)
    | Nested(u: string, m: string, n: string, w: string)

  function Text(f: Flaw): string {
    match f
    case Trailing(u) => u + "$"
    case Dollar(u, m, w) => u + "$" + Pattern(m) + w
    case Unclosed(u, n) => u + "${" + n
    case Nested(u, m, n, w) => u + ("${" + m) + Pattern(n) + w
  }

  predicate Flawed(f: Flaw) {
    match f
    case Trailing(_) => true
    case Dollar(_, m, _) => PlainName(m)
    case Unclosed(_, n) => PlainName(n)
    case Nested(_, m, n, _) => PlainName(m) && PlainName(n)
  }

  lemma Prepend(a: string, f: Flaw)
    ensures Text(f.(u := a + f.u)) == a + Text(f)
  {
  }

  lemma {:induction false} LastOpen(t: string) returns (a: string, z: string)
    requires HasOpen(t)
    ensures t == a + "${" + z && !HasOpen(z)
  {
    if HasOpen(t[1..]) {
      a, z := LastOpen(t[1..]);
      a := [t[0]] + a;
    } else {
      a, z := "", t[2..];
      assert t[1..][1..] == z;
    }
  }

  lemma UnclosedFlaw(s: string) returns (f: Flaw)
    requires |s| > 1 && s[0] == '$' && s[1] == '{' && '}' !in s
    ensures Flawed(f) && Text(f) == s
  {
    var a, z := LastOpen(s);
    f := Unclosed(a, z);
  }

  lemma NestedFlaw(name: string, rest: string) returns (f: Flaw)
    requires HasOpen(name) && '}' !in name
    ensures Flawed(f) && Text(f) == Pattern(name) + rest
  {
    var a, n := LastOpen(name);
    assert ("${" + a)[0] == '$' && ("${" + a)[1] == '{';
    var u, m := LastOpen("${" + a);
    f := Nested(u, m, n, rest);
    assert Pattern(name) == ("${" + a) + ("${" + n + "}");
    assert forall c :: c in n || c in a ==> c in name;
    assert forall c :: c in m ==> c in "${" + a;
  }

  lemma DollarFlaw(s: string) returns (f: Flaw)
    requires Parse(s).Some? && (Parse(s).value == [] || Parse(s).value[0].Ref?)
    ensures Flawed(f) && Text(f) == "$" + s
  {
    var t := Parse(s).value;
    ParseIsClean(s);
    if t == [] {
      f := Trailing("");
    } else {
      f := Dollar("", t[0].name, Render(t[1..]));
    }
  }

  lemma {:induction false} FindFlaw(s: string) returns (f: Flaw)
    requires Parse(s) == None
    ensures Flawed(f) && Text(f) == s
    decreases |s|
  {
    if s[0] == '$' && |s| > 1 && s[1] == '{' {
      var k := CloseAt(s, 2);
      if k == |s| {
        f := UnclosedFlaw(s);
      } else {
        PatternSplit(s, k);
        var name, rest := s[2..k], s[k + 1..];
        if HasOpen(name) {
          f := NestedFlaw(name, rest);
        } else {
          f := FindFlaw(rest);
          Prepend(Pattern(name), f);
          f := f.(u := Pattern(name) + f.u);
        }
      }
    } else {
      var rest := s[1..];
      assert s == [s[0]] + rest;
      if Parse(rest).None? {
        f := FindFlaw(rest);
        Prepend([s[0]], f);
        f := f.(u := [s[0]] + f.u);
      } else {
        f := DollarFlaw(rest);
      }
    }
  }

  // ---- Each flaw breaks a dictionary ----

  /** A name longer than any text at hand. */
  function Long(k: nat): (b: string)
    ensures |b| == k && forall i :: 0 <= i < k ==> b[i] == 'b'
  {
    seq(k, _ => 'b')
  }

  lemma {:induction false} PlainLonger(n: string, k: nat)
    requires PlainName(n)
    ensures PlainName(n + Long(k))
  {
    var b := n + Long(k);
    if n == "" {
      assert b == Long(k);
      NeverOpens(b);
    } else {
      assert b[1..] == n[1..] + Long(k);
      PlainLonger(n[1..], k);
    }
  }

  lemma {:induction false} NeverOpens(s: string)
    requires '$' !in s
    ensures !HasOpen(s)
  {
    if s != "" {
      NeverOpens(s[1..]);
    }
  }

  /** One replacement that forms a reference to `b` makes `b` matter. */
  lemma FormedMatters(arg: Arg, b: string, v: string, p: string, c: string)
    requires HasOpen(v) && Replace(v, Pattern(arg.name), arg.value) == p + Pattern(b) + c
    ensures !Same([arg], b, v, "", "x")
  {
    var s := p + Pattern(b) + c;
    OccursBetween(p, Pattern(b), c);
    ReplaceGrows(s, Pattern(b), "", "x");
    ReplaceFromLast([arg], Arg(b, ""), v, 0);
    ReplaceFromLast([arg], Arg(b, "x"), v, 0);
    assert ReplaceFrom([arg], s, 1) == s;
    assert ReplaceFrom([arg], v, 0) == s;
  }

  /** The value `s` inserted in front of `w`: a tidy text that does not refer to `b`. */
  lemma Insertion(s: string, w: string, b: string) returns (v: string)
    requires '$' !in w && '}' !in b && |b| > 1
    ensures HasOpen(v) && Parse(v).Some? && !Occurs(Pattern(b), v)
    ensures Replace(v, Pattern("A"), s) == s + w
  {
    v := Pattern("A") + w;
    var t := [Ref("A")] + Chars(w);
    RenderChars(w);
    assert t[1..] == Chars(w) && PlainName("A");
    ParseRender(t);
    assert v[0] == '$' && v[1] == '{' && v[2] == 'A' && v[3] == '}';
    assert Pattern(b)[3] == b[1] != v[3];
    assert v[1..] == "{A}" + w;
    NoDollar(b, v[1..]);
    ReplaceAtStart("A", w, s);
    ReplaceSkips(w, "", Pattern("A"), s);
    assert w + "" == w;
  }

  lemma HasOpenIn(a: string, c: string)
    ensures HasOpen(a + "${" + c)
  {
    OpenAt(a + "${" + c, |a|);
  }

  lemma ValueParses(s: string)
    requires '$' !in s
    ensures Parse(s).Some?
  {
    RenderChars(s);
    ParseRender(Chars(s));
  }

  lemma OneArgument(s: string, arg: Arg, b: string, v: string)
    requires PlainName(b) && PlainName(arg.name) && |arg.name| <= |s| + 1 && |s| + 1 < |b|
    requires v == s || (Parse(v).Some? && !Occurs(Pattern(b), v))
    requires arg.value == s || (Parse(arg.value).Some? && !Occurs(Pattern(b), arg.value))
    ensures Setting(s, [arg], b, v)
  {
    TooLong(Pattern(b), s);
  }

  lemma TrailingBreaks(u: string) returns (arg: Arg, b: string, v: string)
    ensures Setting(u + "$", [arg], b, v) && !Same([arg], b, v, "", "x")
  {
    var s := u + "$";
    b, arg := Long(|s| + 2), Arg("A", s);
    NeverOpens(b);
    v := Insertion(s, "{" + b + "}", b);
    OneArgument(s, arg, b, v);
    assert s + ("{" + b + "}") == u + Pattern(b) + "";
    FormedMatters(arg, b, v, u, "");
  }

  lemma UnclosedBreaks(u: string, n: string) returns (arg: Arg, b: string, v: string)
    requires PlainName(n)
    ensures Setting(u + "${" + n, [arg], b, v) && !Same([arg], b, v, "", "x")
  {
    var s := u + "${" + n;
    var more := Long(|s| + 2);
    b, arg := n + more, Arg("A", s);
    PlainLonger(n, |s| + 2);
    v := Insertion(s, more + "}", b);
    OneArgument(s, arg, b, v);
    assert s + (more + "}") == u + Pattern(b) + "";
    FormedMatters(arg, b, v, u, "");
  }

  /** Replacing a reference behind `z` forms the reference that `z` and the replacement make up. */
  lemma ReplacementForms(u: string, z: string, n: string, w: string, r: string, b: string)
    requires PlainName(n) && '}' !in z && z + r == Pattern(b)
    ensures Replace(u + z + Pattern(n) + w, Pattern(n), r)
      == Replace(u, Pattern(n), r) + Pattern(b) + Replace(w, Pattern(n), r)
  {
    ReplaceSplit(u + z, n, w, r);
    ReplaceSuffix(u, z, n, r);
    assert Replace(u, Pattern(n), r) + z + r == Replace(u, Pattern(n), r) + Pattern(b);
  }

  /** Such a text depends on an argument that nothing refers to. */
  lemma ReplacementBreaks(u: string, z: string, n: string, w: string, r: string, b: string)
    requires PlainName(n) && PlainName(b) && '}' !in z && '$' !in r && z + r == Pattern(b)
    requires |u + z + Pattern(n) + w| + 1 < |b|
    ensures Setting(u + z + Pattern(n) + w, [Arg(n, r)], b, u + z + Pattern(n) + w)
    ensures !Same([Arg(n, r)], b, u + z + Pattern(n) + w, "", "x")
  {
    var s := u + z + Pattern(n) + w;
    ValueParses(r);
    NoDollar(b, r);
    OneArgument(s, Arg(n, r), b, s);
    HasOpenIn(u + z, n + "}" + w);
    assert s == u + z + "${" + (n + "}" + w);
    ReplacementForms(u, z, n, w, r, b);
    FormedMatters(Arg(n, r), b, s, Replace(u, Pattern(n), r), Replace(w, Pattern(n), r));
  }

  /** Every text that does not parse has a part in a dictionary in which a replacement forms a reference. */
  lemma UntidyBreaks(s: string) returns (arg: Arg, b: string, v: string)
    requires Parse(s) == None
    ensures Setting(s, [arg], b, v) && !Same([arg], b, v, "", "x")
  {
    var f := FindFlaw(s);
    var more := Long(|s| + 2);
    match f
    case Trailing(u) => arg, b, v := TrailingBreaks(u);
    case Unclosed(u, n) => arg, b, v := UnclosedBreaks(u, n);
    case Dollar(u, m, w) =>
      arg, b, v := Arg(m, "{" + more + "}"), more, s;
      NeverOpens(more);
      ReplacementBreaks(u, "$", m, w, arg.value, b);
    case Nested(u, m, n, w) =>
      arg, b, v := Arg(n, more + "}"), m + more, s;
      PlainLonger(m, |s| + 2);
      ReplacementBreaks(u, "${" + m, n, w, arg.value, b);
  }

  /**
   * A text parses if and only if, wherever it is put among values that parse, an argument that nothing refers to
   * makes no difference to the loops.
   */
  lemma TidyExactly(s: string)
    ensures Parse(s).Some? <==> IgnoresUnreferenced(s)
  {
    if Parse(s).Some? {
      forall args, b, v, x, y | Setting(s, args, b, v)
        ensures Same(args, b, v, x, y)
      {
        UnreferencedIsIgnored(args, b, v, x);
        UnreferencedIsIgnored(args, b, v, y);
      }
    } else {
      var arg, b, v := UntidyBreaks(s);
    }
  }
}
