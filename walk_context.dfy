/** The walker's breadcrumb (`walkContext` in utils/acquire.go): every context
    points to its parent, carries the segment that leads to it from the parent,
    and hands the source file name and the read options down unchanged. */
module WalkContext {
  import opened Wrappers

  /** `readOptions`: the functional options of `Read`, collected. */
  datatype ReadOptions = ReadOptions(showProvenance: bool)

  datatype Ctx = Ctx(parent: Option<Ctx>, segment: string, file: string, opts: Option<ReadOptions>)

  /** The context `jsonnetReader` starts the walk with. */
  function Root(file: string, opts: ReadOptions): Ctx {
    Ctx(None, "$", file, Some(opts))
  }

  /** `path()`: the parent's path followed by this context's segment. */
  function Path(c: Ctx): string {
    (if c.parent.Some? then Path(c.parent.value) else "") + c.segment
  }

  /** `child(label)`. */
  function Child(c: Ctx, segment: string): Ctx {
    Ctx(Some(c), segment, c.file, c.opts)
  }

  /** The segment for a map field, `fmt.Sprintf(".%s", k)`. */
  function FieldSegment(key: string): string {
    "." + key
  }

  /** The segment for an array element, `fmt.Sprintf("[%d]", i)`. */
  function IndexSegment(i: nat): string {
    "[" + NatToString(i) + "]"
  }

  /** Decimal digits, as `%d` prints a non-negative integer. */
  function NatToString(n: nat): (s: string)
    ensures |s| > 0
    ensures forall i | 0 <= i < |s| :: '0' <= s[i] <= '9'
    ensures |s| > 1 ==> s[0] != '0'
  {
    if n < 10 then [Digit(n)] else NatToString(n / 10) + [Digit(n % 10)]
  }

  function Digit(d: nat): (c: char)
    requires d < 10
  {
    ['0', '1', '2', '3', '4', '5', '6', '7', '8', '9'][d]
  }

  /** The number a string of decimal digits denotes. */
  function DigitsValue(s: string): int {
    if s == [] then 0 else DigitsValue(s[..|s| - 1]) * 10 + (s[|s| - 1] as int - '0' as int)
  }

  /** The digits of `%d` denote the index itself. */
  lemma {:induction false} NatToStringValue(n: nat)
    ensures DigitsValue(NatToString(n)) == n
  {
    var s := NatToString(n);
    if n < 10 {
      assert s[..|s| - 1] == [];
    } else {
      assert s[..|s| - 1] == NatToString(n / 10);
      NatToStringValue(n / 10);
    }
  }

  /** The segments from the root context down to `c`. */
  function Segments(c: Ctx): seq<string> {
    (if c.parent.Some? then Segments(c.parent.value) else []) + [c.segment]
  }

  /** The outermost ancestor of `c`. */
  function Origin(c: Ctx): Ctx {
    if c.parent.Some? then Origin(c.parent.value) else c
  }

  function Concat(ss: seq<string>): string {
    if ss == [] then "" else ss[0] + Concat(ss[1..])
  }

  /** The context reached from `c` by descending through `segs`, one child at a time. */
  function Descend(c: Ctx, segs: seq<string>): Ctx
    decreases segs
  {
    if segs == [] then c else Descend(Child(c, segs[0]), segs[1..])
  }

  lemma {:induction false} ConcatAppend(ss: seq<string>, ts: seq<string>)
    ensures Concat(ss + ts) == Concat(ss) + Concat(ts)
  {
    if ss == [] {
      assert ss + ts == ts;
    } else {
      assert (ss + ts)[1..] == ss[1..] + ts;
      ConcatAppend(ss[1..], ts);
    }
  }

  /** A path is the concatenation of the segments from the root down, and the
      first of them is the root's own. */
  lemma {:induction false} PathIsConcatenation(c: Ctx)
    ensures Path(c) == Concat(Segments(c))
    ensures Segments(c)[0] == Origin(c).segment
  {
    if c.parent.Some? {
      PathIsConcatenation(c.parent.value);
      ConcatAppend(Segments(c.parent.value), [c.segment]);
    }
  }

  /** Descending extends the path by exactly the segments passed and inherits
      the file and the options. */
  lemma {:induction false} DescendPath(c: Ctx, segs: seq<string>)
    ensures Path(Descend(c, segs)) == Path(c) + Concat(segs)
    ensures Segments(Descend(c, segs)) == Segments(c) + segs
    ensures Descend(c, segs).file == c.file && Descend(c, segs).opts == c.opts
    decreases segs
  {
    if segs != [] {
      DescendPath(Child(c, segs[0]), segs[1..]);
      assert segs == [segs[0]] + segs[1..];
    }
  }

  /** From the walk's starting context, a path is "$" followed by the segments. */
  lemma {:induction false} RootDescendPath(file: string, opts: ReadOptions, segs: seq<string>)
    ensures Path(Descend(Root(file, opts), segs)) == "$" + Concat(segs)
    ensures Descend(Root(file, opts), segs).file == file
    ensures Descend(Root(file, opts), segs).opts == Some(opts)
  {
    DescendPath(Root(file, opts), segs);
  }

  lemma {:induction false} DigitInjective(a: nat, b: nat)
    requires a < 10 && b < 10 && Digit(a) == Digit(b)
    ensures a == b
  {
  }

  /** Different indices print differently, so sibling elements get different paths. */
  lemma {:induction false} NatToStringInjective(m: nat, n: nat)
    requires NatToString(m) == NatToString(n)
    ensures m == n
  {
    var sm, sn := NatToString(m), NatToString(n);
    if m < 10 && n < 10 {
      DigitInjective(m, n);
    } else if m >= 10 && n >= 10 {
      assert sm[..|sm| - 1] == NatToString(m / 10);
      assert sn[..|sn| - 1] == NatToString(n / 10);
      NatToStringInjective(m / 10, n / 10);
      DigitInjective(m % 10, n % 10);
    }
  }

  /** `child(l).path() == path() + l`; file and options are inherited. */
  lemma ChildPath(c: Ctx, segment: string)
    ensures Path(Child(c, segment)) == Path(c) + segment
    ensures Child(c, segment).file == c.file && Child(c, segment).opts == c.opts
  {
  }

  /** Sibling elements of an array get different paths. */
  lemma {:induction false} SiblingPathsDiffer(c: Ctx, i: nat, j: nat)
    requires i != j
    ensures Path(Child(c, IndexSegment(i))) != Path(Child(c, IndexSegment(j)))
  {
    var si, sj := IndexSegment(i), IndexSegment(j);
    if si == sj {
      assert si[1..|si| - 1] == NatToString(i);
      assert sj[1..|sj| - 1] == NatToString(j);
      NatToStringInjective(i, j);
    }
    var p := Path(c);
    assert (p + si)[|p|..] == si;
    assert (p + sj)[|p|..] == sj;
  }
}
