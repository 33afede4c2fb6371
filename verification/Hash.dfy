/**
 FNV-1a on 64 bits (draft-eastlake-fnv, section 2) and the canonical encoding of
 a config: the encoding can be decoded, and the hash tells apart any two
 equally long streams that differ in a single byte.
 */
module Hash {
  import opened Words
  import opened Config

  type Byte = x: int | 0 <= x < 256

  const OFFSET: Word := 14695981039346656037
  const PRIME: Word := 1099511628211
  const UNPRIME: Word := 0xCE96_5057_AFF6_957B

  /** uint64(v): two's complement. */
  function U64(v: int): Word {
    v % TWO_64
  }

  /** HashByte: xor the byte in, then multiply. */
  function HashByte(h: Word, b: Byte): Word {
    Mul64(Xor64(h, b), PRIME)
  }

  function HashBytes(h: Word, s: seq<Byte>): Word {
    if |s| == 0 then h else HashByte(HashBytes(h, s[..|s| - 1]), s[|s| - 1])
  }

  /** The n low bytes of v, little-endian. */
  function LowBytes(v: nat, n: nat): (s: seq<Byte>)
    ensures |s| == n
    decreases n
  {
    if n == 0 then [] else [v % 256] + LowBytes(v / 256, n - 1)
  }

  // The fold.

  lemma {:induction false} HashConcat(h: Word, s: seq<Byte>, t: seq<Byte>)
    ensures HashBytes(h, s + t) == HashBytes(HashBytes(h, s), t)
    decreases |t|
  {
    hide HashByte;
    if |t| == 0 {
      assert s + t == s;
    } else {
      var n := |t| - 1;
      assert (s + t)[..|s + t| - 1] == s + t[..n];
      HashConcat(h, s, t[..n]);
    }
  }

  lemma HashPush(h: Word, b: Byte)
    ensures HashBytes(h, [b]) == HashByte(h, b)
  {
    assert [b][..0] == [];
  }

  /** The lowest byte of v first, then the others. */
  lemma FoldLow(h: Word, v: nat, n: nat)
    ensures v / 256 >= 0
    ensures HashBytes(h, LowBytes(v, n)) == if n == 0 then h else HashBytes(HashByte(h, v % 256), LowBytes(v / 256, n - 1))
  {
    hide HashByte;
    if n > 0 {
      HashPush(h, v % 256);
      HashConcat(h, [v % 256], LowBytes(v / 256, n - 1));
    }
  }

  method HashU64(h0: Word, v0: Word) returns (h: Word)
    ensures h == HashBytes(h0, LowBytes(v0, 8))
  {
    hide HashByte;
    hide HashBytes;
    hide LowBytes;
    h := h0;
    var v := v0;
    for i := 0 to 8
      invariant 0 <= v < TWO_64
      invariant HashBytes(h, LowBytes(v, 8 - i)) == HashBytes(h0, LowBytes(v0, 8))
    {
      FoldLow(h, v, 8 - i);
      h := HashByte(h, v % 256);
      DivBelow(v, 256);
      v := v / 256;
    }
    FoldLow(h, v, 0);
  }

  method HashU32(h0: Word, v0: U32) returns (h: Word)
    ensures h == HashBytes(h0, LowBytes(v0, 4))
  {
    hide HashByte;
    hide HashBytes;
    hide LowBytes;
    h := h0;
    var v := v0;
    for i := 0 to 4
      invariant 0 <= v < TWO_32
      invariant HashBytes(h, LowBytes(v, 4 - i)) == HashBytes(h0, LowBytes(v0, 4))
    {
      FoldLow(h, v, 4 - i);
      h := HashByte(h, v % 256);
      DivBelow(v, 256);
      v := v / 256;
    }
    FoldLow(h, v, 0);
  }

  // Every step of the fold is a bijection of the state, and injective in the byte.

  lemma PrimeUnit()
    ensures (PRIME * UNPRIME) % TWO_64 == 1
  {
  }

  lemma PrimeMulInjective(x: Word, y: Word)
    requires Mul64(x, PRIME) == Mul64(y, PRIME)
    ensures x == y
  {
    PrimeUnit();
    MulInverse(x, PRIME, UNPRIME, TWO_64);
    MulInverse(y, PRIME, UNPRIME, TWO_64);
  }

  lemma HashByteInjectiveState(g: Word, h: Word, b: Byte)
    requires HashByte(g, b) == HashByte(h, b)
    ensures g == h
  {
    PrimeMulInjective(Xor64(g, b), Xor64(h, b));
    XorCancel(g, h, b);
  }

  lemma HashByteInjectiveByte(h: Word, a: Byte, b: Byte)
    requires HashByte(h, a) == HashByte(h, b)
    ensures a == b
  {
    PrimeMulInjective(Xor64(h, a), Xor64(h, b));
    XorSymmetric(h, a);
    XorSymmetric(h, b);
    XorCancel(a, b, h);
  }

  /** Folding the same bytes into two states keeps them apart. */
  lemma {:induction false} HashBytesInjectiveState(g: Word, h: Word, s: seq<Byte>)
    requires HashBytes(g, s) == HashBytes(h, s)
    ensures g == h
    decreases |s|
  {
    hide HashByte;
    if |s| > 0 {
      var n := |s| - 1;
      HashByteInjectiveState(HashBytes(g, s[..n]), HashBytes(h, s[..n]), s[n]);
      HashBytesInjectiveState(g, h, s[..n]);
    }
  }

  /** Two streams of the same length that differ in exactly one byte have different hashes. */
  lemma OneByteChangesHash(h: Word, s: seq<Byte>, k: nat, b: Byte)
    requires k < |s| && b != s[k]
    ensures HashBytes(h, s[k := b]) != HashBytes(h, s)
  {
    hide HashByte;
    var t := s[k := b];
    assert s == s[..k] + [s[k]] + s[k + 1..];
    assert t == s[..k] + [b] + s[k + 1..];
    var p := HashBytes(h, s[..k]);
    HashConcat(h, s[..k] + [s[k]], s[k + 1..]);
    HashConcat(h, s[..k] + [b], s[k + 1..]);
    HashConcat(h, s[..k], [s[k]]);
    HashConcat(h, s[..k], [b]);
    HashPush(p, s[k]);
    HashPush(p, b);
    if HashBytes(h, t) == HashBytes(h, s) {
      HashBytesInjectiveState(HashByte(p, s[k]), HashByte(p, b), s[k + 1..]);
      HashByteInjectiveByte(p, s[k], b);
      assert false;
    }
  }

  // Encoding a config.

  function RectFields(r: Rect): (s: seq<Word>)
    ensures |s| == 4
  {
    [U64(r.x), U64(r.y), U64(r.w), U64(r.h)]
  }

  function PileFields(f: FoodPile): (s: seq<Word>)
    ensures |s| == 3
  {
    [U64(f.at.x), U64(f.at.y), U64(f.amount)]
  }

  function WallFields(rs: seq<Rect>): (s: seq<Word>)
    ensures |s| == 4 * |rs|
  {
    if |rs| == 0 then [] else WallFields(rs[..|rs| - 1]) + RectFields(rs[|rs| - 1])
  }

  function FoodFields(fs: seq<FoodPile>): (s: seq<Word>)
    ensures |s| == 3 * |fs|
  {
    if |fs| == 0 then [] else FoodFields(fs[..|fs| - 1]) + PileFields(fs[|fs| - 1])
  }

  function HeadFields(c: Config): (s: seq<Word>)
    ensures |s| == 7
  {
    [c.seed, U64(c.width), U64(c.height), U64(c.ticks), U64(c.antCount), U64(c.nest.x), U64(c.nest.y)]
  }

  function TailFields(c: Config): (s: seq<Word>)
    ensures |s| == 9
  {
    var p, m := c.pheromone, c.movement;
    [p.depositFood, p.depositHome, p.evapNum, p.evapDen, p.diffNum, p.diffDen, p.max, m.randomNum, m.randomDen]
  }

  /** The 64-bit fields CanonicalHash folds in, in order. */
  function Fields(c: Config): seq<Word> {
    HeadFields(c) + [U64(|c.walls|)] + WallFields(c.walls) + [U64(|c.food|)] + FoodFields(c.food) + TailFields(c)
  }

  function Encode(ws: seq<Word>): (s: seq<Byte>)
    ensures |s| == 8 * |ws|
  {
    if |ws| == 0 then [] else Encode(ws[..|ws| - 1]) + LowBytes(ws[|ws| - 1], 8)
  }

  lemma EncodePush(ws: seq<Word>, w: Word)
    ensures Encode(ws + [w]) == Encode(ws) + LowBytes(w, 8)
  {
    assert (ws + [w])[..|ws|] == ws;
  }

  method Fold(h0: Word, ghost ws: seq<Word>, w: Word) returns (h: Word)
    requires h0 == HashBytes(OFFSET, Encode(ws))
    ensures h == HashBytes(OFFSET, Encode(ws + [w]))
  {
    h := HashU64(h0, w);
    HashConcat(OFFSET, Encode(ws), LowBytes(w, 8));
    EncodePush(ws, w);
  }

  method FoldAll(h0: Word, ghost ws: seq<Word>, more: seq<Word>) returns (h: Word)
    requires h0 == HashBytes(OFFSET, Encode(ws))
    ensures h == HashBytes(OFFSET, Encode(ws + more))
  {
    hide HashBytes;
    hide Encode;
    h := h0;
    assert ws + more[..0] == ws;
    for i := 0 to |more|
      invariant h == HashBytes(OFFSET, Encode(ws + more[..i]))
    {
      assert ws + more[..i + 1] == ws + more[..i] + [more[i]];
      h := Fold(h, ws + more[..i], more[i]);
    }
    assert more[..|more|] == more;
  }

  method FoldWalls(h0: Word, ghost ws: seq<Word>, rs: seq<Rect>) returns (h: Word)
    requires h0 == HashBytes(OFFSET, Encode(ws))
    ensures h == HashBytes(OFFSET, Encode(ws + WallFields(rs)))
  {
    hide HashBytes;
    hide Encode;
    hide RectFields;
    h := h0;
    assert ws + WallFields(rs[..0]) == ws;
    for i := 0 to |rs|
      invariant h == HashBytes(OFFSET, Encode(ws + WallFields(rs[..i])))
    {
      assert rs[..i + 1][..i] == rs[..i];
      h := FoldAll(h, ws + WallFields(rs[..i]), RectFields(rs[i]));
      assert ws + WallFields(rs[..i]) + RectFields(rs[i]) == ws + WallFields(rs[..i + 1]);
    }
    assert rs[..|rs|] == rs;
  }

  method FoldFood(h0: Word, ghost ws: seq<Word>, fs: seq<FoodPile>) returns (h: Word)
    requires h0 == HashBytes(OFFSET, Encode(ws))
    ensures h == HashBytes(OFFSET, Encode(ws + FoodFields(fs)))
  {
    hide HashBytes;
    hide Encode;
    hide PileFields;
    h := h0;
    assert ws + FoodFields(fs[..0]) == ws;
    for i := 0 to |fs|
      invariant h == HashBytes(OFFSET, Encode(ws + FoodFields(fs[..i])))
    {
      assert fs[..i + 1][..i] == fs[..i];
      h := FoldAll(h, ws + FoodFields(fs[..i]), PileFields(fs[i]));
      assert ws + FoodFields(fs[..i]) + PileFields(fs[i]) == ws + FoodFields(fs[..i + 1]);
    }
    assert fs[..|fs|] == fs;
  }

  /** The hash of everything that can influence a run. */
  method CanonicalHash(c: Config) returns (h: Word)
    ensures h == HashBytes(OFFSET, Encode(Fields(c)))
  {
    assert OFFSET == HashBytes(OFFSET, Encode([]));
    hide HashBytes;
    hide Encode;
    hide HeadFields;
    hide TailFields;
    hide WallFields;
    hide FoodFields;
    hide U64;
    var head := HeadFields(c);
    h := FoldAll(OFFSET, [], head);
    assert [] + head == head;
    h := Fold(h, head, U64(|c.walls|));
    h := FoldWalls(h, head + [U64(|c.walls|)], c.walls);
    ghost var front := head + [U64(|c.walls|)] + WallFields(c.walls);
    h := Fold(h, front, U64(|c.food|));
    h := FoldFood(h, front + [U64(|c.food|)], c.food);
    h := FoldAll(h, front + [U64(|c.food|)] + FoodFields(c.food), TailFields(c));
  }

  // Decoding it.

  /** int64(w). */
  function Signed(w: Word): Int64 {
    if w < TWO_63 then w else w - TWO_64
  }

  lemma SignedRoundTrip(v: Int64)
    ensures Signed(U64(v)) == v
  {
  }

  function Join(s: seq<Byte>): nat {
    if |s| == 0 then 0 else s[0] + 256 * Join(s[1..])
  }

  lemma {:induction false} JoinBytes(v: nat, n: nat)
    requires v < Pow2(8 * n)
    ensures Join(LowBytes(v, n)) == v
    decreases n
  {
    if n > 0 {
      assert LowBytes(v, n)[1..] == LowBytes(v / 256, n - 1);
      Pow2Add(8, 8 * (n - 1));
      assert Pow2(8) == 256;
      QuotientBelow(v, 256, Pow2(8 * (n - 1)));
      JoinBytes(v / 256, n - 1);
    }
  }

  /** Reading back the i-th 64-bit field of a stream. */
  function FieldAt(s: seq<Byte>, i: nat): nat
    requires 8 * i + 8 <= |s|
  {
    Join(s[8 * i..8 * i + 8])
  }

  lemma EncodeLast(ws: seq<Word>)
    requires |ws| > 0
    ensures Encode(ws) == Encode(ws[..|ws| - 1]) + LowBytes(ws[|ws| - 1], 8)
  {
  }

  lemma LastField(w: Word)
    ensures Join(LowBytes(w, 8)) == w
  {
    Pow2Values();
    JoinBytes(w, 8);
  }

  lemma FieldTail(a: seq<Byte>, b: seq<Byte>, i: nat)
    requires |a| == 8 * i && |b| == 8
    ensures FieldAt(a + b, i) == Join(b)
  {
    hide Join;
    assert (a + b)[|a|..|a| + 8] == b;
  }

  lemma FieldHead(a: seq<Byte>, b: seq<Byte>, i: nat)
    requires 8 * i + 8 <= |a|
    ensures FieldAt(a + b, i) == FieldAt(a, i)
  {
    hide Join;
    assert (a + b)[8 * i..8 * i + 8] == a[8 * i..8 * i + 8];
  }

  lemma {:induction false} EncodeAt(ws: seq<Word>, i: nat)
    requires i < |ws|
    ensures FieldAt(Encode(ws), i) == ws[i]
    decreases |ws|
  {
    hide *;
    var n := |ws| - 1;
    EncodeLast(ws);
    if i == n {
      FieldTail(Encode(ws[..n]), LowBytes(ws[n], 8), n);
      LastField(ws[n]);
    } else {
      EncodeAt(ws[..n], i);
      FieldHead(Encode(ws[..n]), LowBytes(ws[n], 8), i);
    }
  }

  /** Equal streams come from equal field sequences. */
  lemma EncodeInjective(a: seq<Word>, b: seq<Word>)
    requires Encode(a) == Encode(b)
    ensures a == b
  {
    forall i | 0 <= i < |a|
      ensures a[i] == b[i]
    {
      EncodeAt(a, i);
      EncodeAt(b, i);
    }
  }

  lemma RectFieldsInjective(a: Rect, b: Rect)
    requires RectFields(a) == RectFields(b)
    ensures a == b
  {
    var s, t := RectFields(a), RectFields(b);
    assert s[0] == t[0] && s[1] == t[1] && s[2] == t[2] && s[3] == t[3];
    SignedRoundTrip(a.x);
    SignedRoundTrip(b.x);
    SignedRoundTrip(a.y);
    SignedRoundTrip(b.y);
    SignedRoundTrip(a.w);
    SignedRoundTrip(b.w);
    SignedRoundTrip(a.h);
    SignedRoundTrip(b.h);
  }

  lemma PileFieldsInjective(a: FoodPile, b: FoodPile)
    requires PileFields(a) == PileFields(b)
    ensures a == b
  {
    var s, t := PileFields(a), PileFields(b);
    assert s[0] == t[0] && s[1] == t[1] && s[2] == t[2];
    SignedRoundTrip(a.at.x);
    SignedRoundTrip(b.at.x);
    SignedRoundTrip(a.at.y);
    SignedRoundTrip(b.at.y);
    SignedRoundTrip(a.amount);
    SignedRoundTrip(b.amount);
  }

  /** Equal tails of equal length can be cut off. */
  lemma SplitTail<T>(a: seq<T>, b: seq<T>, s: seq<T>, t: seq<T>)
    requires a + s == b + t && |s| == |t|
    ensures a == b && s == t
  {
    assert |a| == |b|;
    assert (a + s)[..|a|] == a && (b + t)[..|b|] == b;
    assert (a + s)[|a|..] == s && (b + t)[|b|..] == t;
  }

  lemma SplitHead<T>(a: seq<T>, b: seq<T>, s: seq<T>, t: seq<T>)
    requires a + s == b + t && |a| == |b|
    ensures a == b && s == t
  {
    assert (a + s)[..|a|] == a && (b + t)[..|b|] == b;
    assert (a + s)[|a|..] == s && (b + t)[|b|..] == t;
  }

  lemma {:induction false} WallFieldsInjective(a: seq<Rect>, b: seq<Rect>)
    requires WallFields(a) == WallFields(b)
    ensures a == b
    decreases |a|
  {
    if |a| > 0 {
      var n := |a| - 1;
      SplitTail(WallFields(a[..n]), WallFields(b[..n]), RectFields(a[n]), RectFields(b[n]));
      WallFieldsInjective(a[..n], b[..n]);
      RectFieldsInjective(a[n], b[n]);
      assert a == a[..n] + [a[n]] && b == b[..n] + [b[n]];
    }
  }

  lemma {:induction false} FoodFieldsInjective(a: seq<FoodPile>, b: seq<FoodPile>)
    requires FoodFields(a) == FoodFields(b)
    ensures a == b
    decreases |a|
  {
    if |a| > 0 {
      var n := |a| - 1;
      SplitTail(FoodFields(a[..n]), FoodFields(b[..n]), PileFields(a[n]), PileFields(b[n]));
      FoodFieldsInjective(a[..n], b[..n]);
      PileFieldsInjective(a[n], b[n]);
      assert a == a[..n] + [a[n]] && b == b[..n] + [b[n]];
    }
  }

  lemma HeadFieldsInjective(a: Config, b: Config)
    requires HeadFields(a) == HeadFields(b)
    ensures a.seed == b.seed && a.width == b.width && a.height == b.height && a.ticks == b.ticks
    ensures a.antCount == b.antCount && a.nest == b.nest
  {
    var s, t := HeadFields(a), HeadFields(b);
    assert s[0] == t[0] && s[1] == t[1] && s[2] == t[2] && s[3] == t[3] && s[4] == t[4] && s[5] == t[5] && s[6] == t[6];
    SignedRoundTrip(a.width);
    SignedRoundTrip(b.width);
    SignedRoundTrip(a.height);
    SignedRoundTrip(b.height);
    SignedRoundTrip(a.ticks);
    SignedRoundTrip(b.ticks);
    SignedRoundTrip(a.antCount);
    SignedRoundTrip(b.antCount);
    SignedRoundTrip(a.nest.x);
    SignedRoundTrip(b.nest.x);
    SignedRoundTrip(a.nest.y);
    SignedRoundTrip(b.nest.y);
  }

  lemma TailFieldsInjective(a: Config, b: Config)
    requires TailFields(a) == TailFields(b)
    ensures a.pheromone == b.pheromone && a.movement == b.movement
  {
    var s, t := TailFields(a), TailFields(b);
    assert s[0] == t[0] && s[1] == t[1] && s[2] == t[2] && s[3] == t[3] && s[4] == t[4];
    assert s[5] == t[5] && s[6] == t[6] && s[7] == t[7] && s[8] == t[8];
  }

  /** Two configs that differ at most in their labels. */
  predicate SameInputs(a: Config, b: Config) {
    a.(version := b.version, name := b.name) == b
  }

  /** Go's len returns an int. */
  predicate CountsFit(c: Config) {
    |c.walls| < TWO_63 && |c.food| < TWO_63
  }

  /** The wall part of the fields: a count and that many rectangles. */
  function WallPart(c: Config): seq<Word> {
    [U64(|c.walls|)] + WallFields(c.walls)
  }

  function FoodPart(c: Config): seq<Word> {
    [U64(|c.food|)] + FoodFields(c.food)
  }

  lemma FieldsInParts(c: Config)
    ensures Fields(c) == HeadFields(c) + (WallPart(c) + FoodPart(c) + TailFields(c))
  {
    hide HeadFields;
    hide TailFields;
    hide WallFields;
    hide FoodFields;
  }

  /** The count in front of the rectangles says where the wall part ends. */
  lemma PartsInjective(a: Config, b: Config)
    requires CountsFit(a) && CountsFit(b)
    requires WallPart(a) + FoodPart(a) == WallPart(b) + FoodPart(b)
    ensures a.walls == b.walls && a.food == b.food
  {
    hide WallFields;
    hide FoodFields;
    hide U64;
    assert (WallPart(a) + FoodPart(a))[0] == U64(|a.walls|);
    assert (WallPart(b) + FoodPart(b))[0] == U64(|b.walls|);
    CountsInjective(|a.walls|, |b.walls|);
    SplitHead(WallPart(a), WallPart(b), FoodPart(a), FoodPart(b));
    SplitHead([U64(|a.walls|)], [U64(|b.walls|)], WallFields(a.walls), WallFields(b.walls));
    WallFieldsInjective(a.walls, b.walls);
    assert FoodPart(a)[0] == U64(|a.food|) && FoodPart(b)[0] == U64(|b.food|);
    SplitHead([U64(|a.food|)], [U64(|b.food|)], FoodFields(a.food), FoodFields(b.food));
    FoodFieldsInjective(a.food, b.food);
  }

  lemma CountsInjective(m: nat, n: nat)
    requires m < TWO_63 && n < TWO_63 && U64(m) == U64(n)
    ensures m == n
  {
  }

  lemma FieldsInjective(a: Config, b: Config)
    requires CountsFit(a) && CountsFit(b) && Fields(a) == Fields(b)
    ensures SameInputs(a, b)
  {
    hide HeadFields;
    hide TailFields;
    hide WallPart;
    hide FoodPart;
    FieldsInParts(a);
    FieldsInParts(b);
    hide Fields;
    SplitHead(HeadFields(a), HeadFields(b), WallPart(a) + FoodPart(a) + TailFields(a),
      WallPart(b) + FoodPart(b) + TailFields(b));
    HeadFieldsInjective(a, b);
    SplitTail(WallPart(a) + FoodPart(a), WallPart(b) + FoodPart(b), TailFields(a), TailFields(b));
    TailFieldsInjective(a, b);
    PartsInjective(a, b);
  }

  /** The byte stream identifies the inputs: it is the same exactly when only the labels differ. */
  lemma EncodingIsExact(a: Config, b: Config)
    requires CountsFit(a) && CountsFit(b)
    ensures Encode(Fields(a)) == Encode(Fields(b)) <==> SameInputs(a, b)
  {
    if Encode(Fields(a)) == Encode(Fields(b)) {
      EncodeInjective(Fields(a), Fields(b));
      FieldsInjective(a, b);
    }
  }

  // Where each input stands in the stream.

  lemma {:induction false} WallFieldAt(rs: seq<Rect>, k: nat)
    requires k < |rs|
    ensures WallFields(rs)[4 * k..4 * k + 4] == RectFields(rs[k])
    decreases |rs|
  {
    hide RectFields;
    var n := |rs| - 1;
    if k < n {
      WallFieldAt(rs[..n], k);
      assert WallFields(rs)[4 * k..4 * k + 4] == WallFields(rs[..n])[4 * k..4 * k + 4];
    }
  }

  lemma {:induction false} FoodFieldAt(fs: seq<FoodPile>, k: nat)
    requires k < |fs|
    ensures FoodFields(fs)[3 * k..3 * k + 3] == PileFields(fs[k])
    decreases |fs|
  {
    hide PileFields;
    var n := |fs| - 1;
    if k < n {
      FoodFieldAt(fs[..n], k);
      assert FoodFields(fs)[3 * k..3 * k + 3] == FoodFields(fs[..n])[3 * k..3 * k + 3];
    }
  }

  /** The words of the five parts of a stream. */
  lemma PartsAt(h: seq<Word>, a: Word, w: seq<Word>, b: Word, f: seq<Word>, t: seq<Word>)
    ensures var s := h + [a] + w + [b] + f + t;
      var m := |h| + 1 + |w|;
      && |s| == m + 1 + |f| + |t|
      && (forall i :: 0 <= i < |h| ==> s[i] == h[i]) && s[|h|] == a
      && (forall i :: 0 <= i < |w| ==> s[|h| + 1 + i] == w[i]) && s[m] == b
      && (forall i :: 0 <= i < |f| ==> s[m + 1 + i] == f[i])
      && (forall i :: 0 <= i < |t| ==> s[m + 1 + |f| + i] == t[i])
  {
  }

  /** The i-th word of the stream that CanonicalHash folds. */
  function InputAt(c: Config, i: nat): nat
    requires i < |Fields(c)|
  {
    FieldAt(Encode(Fields(c)), i)
  }

  lemma InputsAre(c: Config)
    ensures |Fields(c)| == 18 + 4 * |c.walls| + 3 * |c.food|
    ensures forall i: nat :: i < |Fields(c)| ==> InputAt(c, i) == Fields(c)[i]
  {
    forall i: nat | i < |Fields(c)|
      ensures InputAt(c, i) == Fields(c)[i]
    {
      EncodeAt(Fields(c), i);
    }
    hide Encode;
    hide FieldAt;
  }

  /** The seed, the size, the number of ticks and of ants and the nest come first, in this order. */
  lemma HeadReads(c: Config)
    ensures |Fields(c)| >= 18
    ensures InputAt(c, 0) == c.seed && InputAt(c, 1) == U64(c.width) && InputAt(c, 2) == U64(c.height)
    ensures InputAt(c, 3) == U64(c.ticks) && InputAt(c, 4) == U64(c.antCount)
    ensures InputAt(c, 5) == U64(c.nest.x) && InputAt(c, 6) == U64(c.nest.y) && InputAt(c, 7) == U64(|c.walls|)
  {
    InputsAre(c);
    hide InputAt;
    hide U64;
    hide WallFields;
    hide FoodFields;
    PartsAt(HeadFields(c), U64(|c.walls|), WallFields(c.walls), U64(|c.food|), FoodFields(c.food), TailFields(c));
  }

  lemma WallFieldIs(rs: seq<Rect>, k: nat)
    requires k < |rs|
    ensures var w, r := WallFields(rs), rs[k];
      w[4 * k] == U64(r.x) && w[4 * k + 1] == U64(r.y) && w[4 * k + 2] == U64(r.w) && w[4 * k + 3] == U64(r.h)
  {
    WallFieldAt(rs, k);
    hide WallFields;
    hide U64;
    var q := WallFields(rs)[4 * k..4 * k + 4];
    assert q[0] == WallFields(rs)[4 * k] && q[1] == WallFields(rs)[4 * k + 1];
    assert q[2] == WallFields(rs)[4 * k + 2] && q[3] == WallFields(rs)[4 * k + 3];
  }

  lemma FoodFieldIs(fs: seq<FoodPile>, k: nat)
    requires k < |fs|
    ensures var f, p := FoodFields(fs), fs[k];
      f[3 * k] == U64(p.at.x) && f[3 * k + 1] == U64(p.at.y) && f[3 * k + 2] == U64(p.amount)
  {
    FoodFieldAt(fs, k);
    hide FoodFields;
    hide U64;
    var q := FoodFields(fs)[3 * k..3 * k + 3];
    assert q[0] == FoodFields(fs)[3 * k] && q[1] == FoodFields(fs)[3 * k + 1] && q[2] == FoodFields(fs)[3 * k + 2];
  }

  /** The parts of a config's stream, by position. */
  lemma PartAt(c: Config, j: nat)
    ensures var m, f, s := 8 + 4 * |c.walls|, FoodFields(c.food), Fields(c);
      && |s| == m + 3 * |c.food| + 10 && s[m] == U64(|c.food|)
      && (j < 4 * |c.walls| ==> s[8 + j] == WallFields(c.walls)[j])
      && (j < 3 * |c.food| ==> s[m + 1 + j] == f[j])
  {
    hide U64;
    hide WallFields;
    hide FoodFields;
    hide HeadFields;
    hide TailFields;
    PartsAt(HeadFields(c), U64(|c.walls|), WallFields(c.walls), U64(|c.food|), FoodFields(c.food), TailFields(c));
  }

  /** Then the walls, four words each. */
  lemma WallReads(c: Config, k: nat)
    requires k < |c.walls|
    ensures 8 + 4 * |c.walls| <= |Fields(c)|
    ensures var r := c.walls[k];
      && InputAt(c, 8 + 4 * k) == U64(r.x) && InputAt(c, 9 + 4 * k) == U64(r.y)
      && InputAt(c, 10 + 4 * k) == U64(r.w) && InputAt(c, 11 + 4 * k) == U64(r.h)
  {
    hide *;
    InputsAre(c);
    WallFieldIs(c.walls, k);
    PartAt(c, 4 * k);
    PartAt(c, 4 * k + 1);
    PartAt(c, 4 * k + 2);
    PartAt(c, 4 * k + 3);
  }

  /** Then the number of piles, and the piles, three words each. */
  lemma PileReads(c: Config, k: nat)
    ensures var m := 8 + 4 * |c.walls|;
      && m + 3 * |c.food| + 10 == |Fields(c)| && InputAt(c, m) == U64(|c.food|)
      && (k < |c.food| ==>
            var p := c.food[k];
            InputAt(c, m + 1 + 3 * k) == U64(p.at.x) && InputAt(c, m + 2 + 3 * k) == U64(p.at.y) &&
            InputAt(c, m + 3 + 3 * k) == U64(p.amount))
  {
    hide *;
    InputsAre(c);
    PartAt(c, 3 * k);
    if k < |c.food| {
      FoodFieldIs(c.food, k);
      PartAt(c, 3 * k + 1);
      PartAt(c, 3 * k + 2);
    }
  }

  /** The parameters of the pheromone and of the movement come last. */
  lemma TailReads(c: Config)
    ensures var m, p := 9 + 4 * |c.walls| + 3 * |c.food|, c.pheromone;
      && m + 9 == |Fields(c)|
      && InputAt(c, m) == p.depositFood && InputAt(c, m + 1) == p.depositHome
      && InputAt(c, m + 2) == p.evapNum && InputAt(c, m + 3) == p.evapDen
      && InputAt(c, m + 4) == p.diffNum && InputAt(c, m + 5) == p.diffDen && InputAt(c, m + 6) == p.max
      && InputAt(c, m + 7) == c.movement.randomNum && InputAt(c, m + 8) == c.movement.randomDen
  {
    InputsAre(c);
    hide InputAt;
    hide U64;
    hide WallFields;
    hide FoodFields;
    hide HeadFields;
    var t := TailFields(c);
    PartsAt(HeadFields(c), U64(|c.walls|), WallFields(c.walls), U64(|c.food|), FoodFields(c.food), t);
  }
}
