/** The pure helpers of the toolkit: left-to-right application (`pipe`),
    the identity, the truthy filter (`compact`) and the CSS serialiser. */
module Util {
  import opened Js

  // ---------------------------------------------------------------- pipe, id

  /** `pipe(v, f1, ..., fn)`: `reduce` of application over the functions,
      starting from `v`. All stages share one type here. */
  function Pipe<T>(v: T, fns: seq<T -> T>): T
    decreases |fns|
  {
    if fns == [] then v else Pipe(fns[0](v), fns[1..])
  }

  /** A pipe with no functions returns its value. */
  lemma PipeEmpty<T>(v: T)
    ensures Pipe(v, []) == v
  {
  }

  /** The reduce is a left fold: the last function is applied last. */
  lemma {:induction false} PipeSnoc<T>(v: T, fns: seq<T -> T>, f: T -> T)
    ensures Pipe(v, fns + [f]) == f(Pipe(v, fns))
    decreases |fns|
  {
    if fns == [] {
      assert fns + [f] == [f];
    } else {
      assert (fns + [f])[1..] == fns[1..] + [f];
      PipeSnoc(fns[0](v), fns[1..], f);
    }
  }

  /** Piping through `a` and then through `b` is piping through `a + b`;
      in particular `pipe(v, f, g) == pipe(f(v), g)`. */
  lemma {:induction false} PipeConcat<T>(v: T, a: seq<T -> T>, b: seq<T -> T>)
    ensures Pipe(v, a + b) == Pipe(Pipe(v, a), b)
    decreases |a|
  {
    if a == [] {
      assert a + b == b;
    } else {
      assert (a + b)[1..] == a[1..] + b;
      PipeConcat(a[0](v), a[1..], b);
    }
  }

  /** `pipe(v, f1, ..., fn) == fn(...f1(v))`, spelled out for two stages. */
  lemma PipeTwo<T>(v: T, f: T -> T, g: T -> T)
    ensures Pipe(v, [f, g]) == g(f(v)) == Pipe(f(v), [g])
  {
    assert [f, g][0] == f && [f, g][1..] == [g];
    assert [g][0] == g && [g][1..] == [];
    calc {
      Pipe(v, [f, g]);
      Pipe(f(v), [g]);
      Pipe(g(f(v)), []);
    }
  }

  /** `id(x) == x`. */
  function Id<A>(x: A): (r: A)
    ensures r == x
  {
    x
  }

  // ----------------------------------------------------------------- compact

  /** `compact(xs)`: `xs.filter(item => item)`. */
  function Compact(xs: seq<Value>): (r: seq<Value>)
    ensures |r| <= |xs|
    ensures forall i :: 0 <= i < |r| ==> Truthy(r[i])
  {
    if xs == [] then []
    else if Truthy(xs[0]) then [xs[0]] + Compact(xs[1..])
    else Compact(xs[1..])
  }

  /** Compact distributes over concatenation: the kept elements stay in
      their original order. */
  lemma {:induction false} CompactAppend(a: seq<Value>, b: seq<Value>)
    ensures Compact(a + b) == Compact(a) + Compact(b)
    decreases |a|
  {
    if a == [] {
      assert a + b == b;
    } else {
      assert (a + b)[0] == a[0];
      assert (a + b)[1..] == a[1..] + b;
      CompactAppend(a[1..], b);
    }
  }

  /** A value is kept exactly when it occurs in `xs` and is truthy. */
  lemma {:induction false} CompactMembers(xs: seq<Value>, v: Value)
    ensures v in Compact(xs) <==> v in xs && Truthy(v)
    decreases |xs|
  {
    if xs != [] {
      CompactMembers(xs[1..], v);
      assert xs == [xs[0]] + xs[1..];
    }
  }

  /** Each truthy value is kept as many times as it occurs; falsy ones never. */
  lemma {:induction false} CompactCounts(xs: seq<Value>, v: Value)
    ensures multiset(Compact(xs))[v] == if Truthy(v) then multiset(xs)[v] else 0
    decreases |xs|
  {
    if xs != [] {
      CompactCounts(xs[1..], v);
      assert xs == [xs[0]] + xs[1..];
    }
  }

  // ------------------------------------------------------------ convertToCSS

  /** One CSS declaration `prop:value`; values are already stringified. */
  datatype Declaration = Declaration(prop: string, value: string)

  /** One selector entry of a CSS object, declarations in insertion order. */
  datatype Rule = Rule(selector: string, decls: seq<Declaration>)

  /** `Array.prototype.join(sep)` on strings. */
  function Join(xs: seq<string>, sep: string): string
    decreases |xs|
  {
    if xs == [] then ""
    else if |xs| == 1 then xs[0]
    else xs[0] + sep + Join(xs[1..], sep)
  }

  /** Splits `s` at every occurrence of `c`: `s.split(c)`. */
  function Split(s: string, c: char): (r: seq<string>)
    ensures |r| > 0
    decreases |s|
  {
    if s == [] then [[]]
    else
      var rest := Split(s[1..], c);
      if s[0] == c then [[]] + rest
      else [[s[0]] + rest[0]] + rest[1..]
  }

  lemma {:induction false} SplitNoSeparator(s: string, c: char)
    requires c !in s
    ensures Split(s, c) == [s]
    decreases |s|
  {
    if s != [] {
      SplitNoSeparator(s[1..], c);
      assert [s[0]] + s[1..] == s;
    }
  }

  lemma {:induction false} SplitAt(a: string, c: char, b: string)
    requires c !in a
    ensures Split(a + [c] + b, c) == [a] + Split(b, c)
    decreases |a|
  {
    if a == [] {
      assert a + [c] + b == [c] + b;
      assert ([c] + b)[1..] == b;
    } else {
      var s := a + [c] + b;
      assert s[0] == a[0];
      assert s[1..] == a[1..] + [c] + b;
      SplitAt(a[1..], c, b);
      assert [a[0]] + a[1..] == a;
    }
  }

  /** Joining with a one-character separator that occurs in no piece is undone
      by splitting on it. */
  lemma {:induction false} SplitJoin(xs: seq<string>, c: char)
    requires |xs| > 0
    requires forall i :: 0 <= i < |xs| ==> c !in xs[i]
    ensures Split(Join(xs, [c]), c) == xs
    decreases |xs|
  {
    if |xs| == 1 {
      SplitNoSeparator(xs[0], c);
    } else {
      SplitJoin(xs[1..], c);
      SplitAt(xs[0], c, Join(xs[1..], [c]));
      assert [xs[0]] + xs[1..] == xs;
    }
  }

  /** `${prop}:${value}` */
  function DeclarationText(d: Declaration): string {
    d.prop + ":" + d.value
  }

  function DeclarationTexts(ds: seq<Declaration>): (r: seq<string>)
    ensures |r| == |ds|
    ensures forall i :: 0 <= i < |ds| ==> r[i] == DeclarationText(ds[i])
  {
    if ds == [] then [] else [DeclarationText(ds[0])] + DeclarationTexts(ds[1..])
  }

  /** `${selector}{${declarations joined by ";"};}` */
  function RuleText(r: Rule): string {
    r.selector + "{" + Join(DeclarationTexts(r.decls), ";") + ";}"
  }

  function RuleTexts(rs: seq<Rule>): (r: seq<string>)
    ensures |r| == |rs|
    ensures forall i :: 0 <= i < |rs| ==> r[i] == RuleText(rs[i])
  {
    if rs == [] then [] else [RuleText(rs[0])] + RuleTexts(rs[1..])
  }

  /** `convertToCSS(obj)`: one block per selector entry, joined by newlines. */
  function ConvertToCss(rules: seq<Rule>): string {
    Join(RuleTexts(rules), "\n")
  }

  /** The block of one selector: the selector, `{`, the declarations separated
      by `;`, and a `;}` that is always there. */
  lemma RuleTextShape(r: Rule)
    ensures RuleText(r)[..|r.selector| + 1] == r.selector + "{"
    ensures |RuleText(r)| >= |r.selector| + 3
    ensures RuleText(r)[|RuleText(r)| - 2..] == ";}"
    ensures r.decls == [] ==> RuleText(r) == r.selector + "{;}"
    ensures |r.decls| == 1 ==> RuleText(r) == r.selector + "{" + r.decls[0].prop + ":" + r.decls[0].value + ";}"
  {
    var body := Join(DeclarationTexts(r.decls), ";");
    assert RuleText(r) == (r.selector + "{") + (body + ";}");
  }

  predicate NoNewline(s: string) { '\n' !in s }

  predicate RuleHasNoNewline(r: Rule) {
    && NoNewline(r.selector)
    && forall i :: 0 <= i < |r.decls| ==> NoNewline(r.decls[i].prop) && NoNewline(r.decls[i].value)
  }

  lemma {:induction false} JoinNoNewline(xs: seq<string>, sep: string)
    requires NoNewline(sep)
    requires forall i :: 0 <= i < |xs| ==> NoNewline(xs[i])
    ensures NoNewline(Join(xs, sep))
    decreases |xs|
  {
    if |xs| > 1 {
      JoinNoNewline(xs[1..], sep);
    }
  }

  lemma RuleTextNoNewline(r: Rule)
    requires RuleHasNoNewline(r)
    ensures NoNewline(RuleText(r))
  {
    var ds := DeclarationTexts(r.decls);
    forall j | 0 <= j < |ds| ensures NoNewline(ds[j]) {
      assert ds[j] == r.decls[j].prop + ":" + r.decls[j].value;
    }
    JoinNoNewline(ds, ";");
    assert RuleText(r) == r.selector + "{" + Join(ds, ";") + ";}";
  }

  /** A stylesheet without newlines inside its selectors and declarations
      splits back into exactly one block per selector entry, in order. */
  lemma ConvertToCssBlocks(rules: seq<Rule>)
    requires |rules| > 0
    requires forall i :: 0 <= i < |rules| ==> RuleHasNoNewline(rules[i])
    ensures Split(ConvertToCss(rules), '\n') == RuleTexts(rules)
  {
    var texts := RuleTexts(rules);
    forall i | 0 <= i < |texts| ensures '\n' !in texts[i] {
      RuleTextNoNewline(rules[i]);
    }
    SplitJoin(texts, '\n');
  }
}
