/** Length-prefixed big-endian fields, and when a concatenation of them can be taken apart again. */
module Encoding {
  type Byte = x: int | 0 <= x < 256
  type Text = seq<Byte>

  const WORD: int := 0x1_0000_0000

  function Be16(n: int): Text { [n / 0x100 % 0x100, n % 0x100] }

  function Be32(n: int): Text { [n / 0x100_0000 % 0x100, n / 0x1_0000 % 0x100, n / 0x100 % 0x100, n % 0x100] }

  datatype Field = U8(n: int) | U16(n: int) | U32(n: int) | Str(text: Text) {
    /** The value survives the truncation to its width; a string's length is written in 32 bits. */
    predicate Fits() {
      match this
      case U8(n) => 0 <= n < 0x100
      case U16(n) => 0 <= n < 0x1_0000
      case U32(n) => 0 <= n < WORD
      case Str(text) => |text| < WORD
    }

    function Bytes(): (r: Text)
      ensures r != []
    {
      match this
      case U8(n) => [n % 0x100]
      case U16(n) => Be16(n)
      case U32(n) => Be32(n)
      case Str(text) => Be32(|text|) + text
    }
  }

  predicate SameKind(f: Field, g: Field) {
    match f
    case U8(_) => g.U8?
    case U16(_) => g.U16?
    case U32(_) => g.U32?
    case Str(_) => g.Str?
  }

  function Flag(b: bool): Field { U8(if b then 1 else 0) }

  lemma Be32Injective(m: int, n: int)
    requires 0 <= m < WORD && 0 <= n < WORD && Be32(m) == Be32(n)
    ensures m == n
  {
    assert Be32(m)[0] == Be32(n)[0] && Be32(m)[1] == Be32(n)[1] && Be32(m)[2] == Be32(n)[2] && Be32(m)[3] == Be32(n)[3];
    Digits(m);
    Digits(n);
  }

  lemma Digits(n: int)
    requires 0 <= n < WORD
    ensures n == 0x100_0000 * (n / 0x100_0000 % 0x100) + 0x1_0000 * (n / 0x1_0000 % 0x100) + 0x100 * (n / 0x100 % 0x100) + n % 0x100
  {
    assert n == 0x100 * (n / 0x100) + n % 0x100;
    var a := n / 0x100;
    assert n / 0x1_0000 == a / 0x100 && n / 0x100_0000 == a / 0x1_0000;
    assert a == 0x100 * (a / 0x100) + a % 0x100;
    var b := a / 0x100;
    assert a / 0x1_0000 == b / 0x100 && b == 0x100 * (b / 0x100) + b % 0x100;
  }

  lemma Be16Injective(m: int, n: int)
    requires 0 <= m < 0x1_0000 && 0 <= n < 0x1_0000 && Be16(m) == Be16(n)
    ensures m == n
  {
    assert Be16(m)[0] == Be16(n)[0] && Be16(m)[1] == Be16(n)[1];
  }

  lemma SplitAt(a: Text, r: Text, b: Text, s: Text)
    requires a + r == b + s && |a| == |b|
    ensures a == b && r == s
  {
    assert a == (a + r)[..|a|] && b == (b + s)[..|b|];
    assert r == (a + r)[|a|..] && s == (b + s)[|b|..];
  }

  lemma StringPrefix(t: Text, u: Text, r: Text, s: Text)
    requires |t| < WORD && |u| < WORD && (Be32(|t|) + t) + r == (Be32(|u|) + u) + s
    ensures t == u && r == s
  {
    var a, b := Be32(|t|), Be32(|u|);
    assert (a + t) + r == a + (t + r) && (b + u) + s == b + (u + s);
    SplitAt(a, t + r, b, u + s);
    Be32Injective(|t|, |u|);
    SplitAt(t, r, u, s);
  }

  /** One field can be read back from the front of any bytes. */
  lemma FieldPrefix(f: Field, g: Field, r: Text, s: Text)
    requires SameKind(f, g) && f.Fits() && g.Fits() && f.Bytes() + r == g.Bytes() + s
    ensures f == g && r == s
  {
    match f
    case U8(n) =>
      SplitAt(f.Bytes(), r, g.Bytes(), s);
      assert f.Bytes()[0] == g.Bytes()[0];
    case U16(n) =>
      SplitAt(f.Bytes(), r, g.Bytes(), s);
      Be16Injective(n, g.n);
    case U32(n) =>
      SplitAt(f.Bytes(), r, g.Bytes(), s);
      Be32Injective(n, g.n);
    case Str(text) => StringPrefix(text, g.text, r, s);
  }

  function Encode(fields: seq<Field>): Text {
    if fields == [] then [] else fields[0].Bytes() + Encode(fields[1..])
  }

  ghost predicate AllFit(fields: seq<Field>) {
    forall f :: f in fields ==> f.Fits()
  }

  /** As long as two lists agree, their next fields are of the same kind. */
  ghost predicate Aligned(fs: seq<Field>, gs: seq<Field>)
    decreases |fs|
  {
    fs == [] || gs == [] || (SameKind(fs[0], gs[0]) && (fs[0] == gs[0] ==> Aligned(fs[1..], gs[1..])))
  }

  /** Untagged fields can be taken apart when each one's kind follows from the fields before it. */
  lemma {:induction false} EncodeInjective(fs: seq<Field>, gs: seq<Field>)
    requires Aligned(fs, gs) && AllFit(fs) && AllFit(gs) && Encode(fs) == Encode(gs)
    ensures fs == gs
    decreases |fs|
  {
    if fs == [] || gs == [] {
    } else {
      assert fs[0] in fs && gs[0] in gs;
      FieldPrefix(fs[0], gs[0], Encode(fs[1..]), Encode(gs[1..]));
      EncodeInjective(fs[1..], gs[1..]);
      assert fs == [fs[0]] + fs[1..] && gs == [gs[0]] + gs[1..];
    }
  }

  lemma {:induction false} EncodeAppends(fs: seq<Field>, gs: seq<Field>)
    ensures Encode(fs + gs) == Encode(fs) + Encode(gs)
    decreases |fs|
  {
    if fs == [] {
      assert fs + gs == gs;
    } else {
      assert (fs + gs)[1..] == fs[1..] + gs;
      EncodeAppends(fs[1..], gs);
    }
  }

  // ----- composing layouts

  /** Aligned, and neither list stops where the other goes on. */
  ghost predicate Delimited(fs: seq<Field>, gs: seq<Field>) {
    Aligned(fs, gs) && (fs <= gs || gs <= fs ==> fs == gs)
  }

  /** What follows two self-delimiting parts needs to be aligned only when the parts are equal. */
  lemma {:induction false} AlignedAppends(fs: seq<Field>, gs: seq<Field>, us: seq<Field>, vs: seq<Field>)
    requires Delimited(fs, gs) && (fs == gs ==> Aligned(us, vs))
    ensures Aligned(fs + us, gs + vs)
    decreases |fs|
  {
    if fs == [] || gs == [] {
      assert fs == gs;
      assert fs + us == us && gs + vs == vs;
    } else {
      assert (fs + us)[1..] == fs[1..] + us && (gs + vs)[1..] == gs[1..] + vs;
      assert fs == [fs[0]] + fs[1..] && gs == [gs[0]] + gs[1..];
      if fs[0] == gs[0] {
        AlignedAppends(fs[1..], gs[1..], us, vs);
      }
    }
  }

  lemma DelimitedAppends(fs: seq<Field>, gs: seq<Field>, us: seq<Field>, vs: seq<Field>)
    requires Delimited(fs, gs) && (fs == gs ==> Delimited(us, vs))
    ensures Delimited(fs + us, gs + vs)
    ensures fs + us == gs + vs ==> fs == gs && us == vs
  {
    AlignedAppends(fs, gs, us, vs);
    if fs + us <= gs + vs {
      PrefixSplits(fs, gs, us, vs);
    }
    if gs + vs <= fs + us {
      PrefixSplits(gs, fs, vs, us);
    }
  }

  lemma PrefixSplits(fs: seq<Field>, gs: seq<Field>, us: seq<Field>, vs: seq<Field>)
    requires fs + us <= gs + vs
    requires fs <= gs || gs <= fs ==> fs == gs
    ensures fs == gs && us <= vs
  {
    var n := if |fs| < |gs| then |fs| else |gs|;
    forall i | 0 <= i < n
      ensures fs[i] == gs[i]
    {
      assert (fs + us)[i] == (gs + vs)[i];
    }
    assert fs[..n] == gs[..n];
    assert us == (fs + us)[|fs|..] && vs == (gs + vs)[|gs|..];
  }

  lemma AppendsSplit(fs: seq<Field>, gs: seq<Field>, us: seq<Field>, vs: seq<Field>)
    requires Delimited(fs, gs) && fs + us == gs + vs
    ensures fs == gs && us == vs
  {
    PrefixSplits(fs, gs, us, vs);
  }

  /** A fixed layout: the same kinds in the same places. */
  lemma {:induction false} FixedLayout(fs: seq<Field>, gs: seq<Field>)
    requires |fs| == |gs| && forall i :: 0 <= i < |fs| ==> SameKind(fs[i], gs[i])
    ensures Delimited(fs, gs)
    decreases |fs|
  {
    if fs == [] {
    } else {
      FixedLayout(fs[1..], gs[1..]);
    }
  }

  function Strings(texts: seq<Text>): (r: seq<Field>)
    ensures |r| == |texts|
    ensures forall i :: 0 <= i < |texts| ==> r[i] == Str(texts[i])
  {
    seq(|texts|, i requires 0 <= i < |texts| => Str(texts[i]))
  }

  /** A count followed by that many strings. */
  function Counted(texts: seq<Text>): seq<Field> { [U8(|texts|)] + Strings(texts) }

  lemma CountedDelimited(a: seq<Text>, b: seq<Text>)
    ensures Delimited(Counted(a), Counted(b))
    ensures Counted(a) == Counted(b) <==> a == b
  {
    var one, two := [U8(|a|)], [U8(|b|)];
    FixedLayout(one, two);
    if one == two {
      assert one[0] == two[0];
      FixedLayout(Strings(a), Strings(b));
    }
    DelimitedAppends(one, two, Strings(a), Strings(b));
    if Counted(a) == Counted(b) {
      forall i | 0 <= i < |a|
        ensures a[i] == b[i]
      {
        assert Strings(a)[i] == Strings(b)[i];
      }
    }
  }
}
