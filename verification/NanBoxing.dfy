/** JSValue on 32-bit builds: every value is one 64-bit word, doubles shifted so that tags fit between them. */
module NanBoxing {
  import opened Prelude
  import opened Binary64

  const W32 := 0x1_0000_0000
  const W64 := 0x1_0000_0000_0000_0000

  const TAG_FIRST := -9
  const TAG_FLOAT64 := 8

  /** JS_FLOAT64_TAG_ADDEND << 32 */
  const ADDEND := (0x7ff80000 - TAG_FIRST + 1) * W32

  const CANONICAL_NAN: Bits := 0x7ff8_0000_0000_0000

  /** JS_NAN */
  const BOXED_NAN: Bits := CANONICAL_NAN - ADDEND + W64

  /** The value of a uint32_t read as an int. */
  function Int32(x: int): int
    requires 0 <= x < W32
  {
    if x < 0x8000_0000 then x else x - W32
  }

  /** JS_MKVAL */
  function MakeValue(tag: int, payload: int): (v: Bits) {
    (tag % W32) * W32 + payload % W32
  }

  /** JS_VALUE_GET_TAG */
  function Tag(v: Bits): int { Int32(v / W32) }

  /** JS_VALUE_GET_INT */
  function IntOf(v: Bits): int { Int32(v % W32) }

  /** __JS_NewFloat64 */
  function Box(d: Bits): Bits {
    if d % SIGN > 0x7ff0_0000_0000_0000 then BOXED_NAN else (d - ADDEND) % W64
  }

  /** JS_VALUE_GET_FLOAT64 */
  function Unbox(v: Bits): Bits { (v + ADDEND) % W64 }

  /** JS_TAG_IS_FLOAT64: an unsigned comparison. */
  predicate IsFloatTag(tag: int) { (tag - TAG_FIRST) % W32 >= TAG_FLOAT64 - TAG_FIRST }

  /** JS_VALUE_GET_NORM_TAG */
  function NormTag(v: Bits): int { if IsFloatTag(Tag(v)) then TAG_FLOAT64 else Tag(v) }

  /** JS_VALUE_IS_NAN */
  predicate IsBoxedNaN(v: Bits) { v / W32 == BOXED_NAN / W32 }

  /** JS_VALUE_HAS_REF_COUNT: an unsigned comparison. */
  predicate HasRefCount(v: Bits) { v / W32 >= TAG_FIRST % W32 }

  // ---------------------------------------------------------------- what the word stands for

  /** A value: a tagged 32-bit payload, or a double. */
  datatype Value = Tagged(tag: int, payload: int) | Double(bits: Bits)

  predicate Valid(x: Value) {
    match x
    case Tagged(tag, payload) => TAG_FIRST <= tag < TAG_FLOAT64 && -0x8000_0000 <= payload < 0x8000_0000
    case Double(bits) => true
  }

  /** Doubles keep their identity; all NaNs become one. */
  function Canonical(x: Value): Value {
    if x.Double? && IsNaN(x.bits) then Double(CANONICAL_NAN) else x
  }

  function Encode(x: Value): Bits {
    match x
    case Tagged(tag, payload) => MakeValue(tag, payload)
    case Double(bits) => Box(bits)
  }

  function Decode(v: Bits): Value {
    if NormTag(v) == TAG_FLOAT64 then Double(Unbox(v)) else Tagged(Tag(v), IntOf(v))
  }

  /** Some words: tag above payload; 1.0, negative zero and NaN moved down by the addend. */
  lemma Words()
    ensures Encode(Tagged(0, 5)) == 0x0000_0000_0000_0005 && Encode(Tagged(1, -1)) == 0x0000_0001_FFFF_FFFF
    ensures Encode(Tagged(-9, 0x1000)) == 0xFFFF_FFF7_0000_1000
    ensures Encode(Double(0x3FF0_0000_0000_0000)) == 0xBFF7_FFF6_0000_0000
    ensures Encode(Double(0x8000_0000_0000_0000)) == 0x0007_FFF6_0000_0000
    ensures Encode(Double(0x7FF0_0000_0000_0001)) == 0xFFFF_FFF6_0000_0000
  {
  }

  lemma NaNTest(d: Bits)
    ensures IsNaN(d) <==> d % SIGN > 0x7ff0_0000_0000_0000
  {
  }

  /** The tag word of a boxed double, unsigned: every tag from -9 to 7 lies outside this range. */
  lemma BoxedRange(d: Bits)
    ensures TAG_FLOAT64 * W32 <= Box(d) < (W32 + TAG_FIRST) * W32
  {
  }

  /** Boxing then unboxing is the identity, except that every NaN becomes the canonical one. */
  lemma UnboxBox(d: Bits)
    ensures Unbox(Box(d)) == if IsNaN(d) then CANONICAL_NAN else d
  {
    NaNTest(d);
  }

  lemma DecodeTagged(tag: int, payload: int)
    requires Valid(Tagged(tag, payload))
    ensures Decode(MakeValue(tag, payload)) == Tagged(tag, payload)
  {
  }

  lemma DecodeDouble(d: Bits)
    ensures Decode(Box(d)) == Canonical(Double(d))
  {
    BoxedRange(d);
    UnboxBox(d);
  }

  /** Encoding then decoding gives the value back, for tagged values and doubles alike. */
  lemma DecodeEncode(x: Value)
    requires Valid(x)
    ensures Decode(Encode(x)) == Canonical(x)
  {
    match x
    case Tagged(tag, payload) => DecodeTagged(tag, payload);
    case Double(bits) => DecodeDouble(bits);
  }

  /** So no two values share a word. */
  lemma EncodeIsInjective(x: Value, y: Value)
    requires Valid(x) && Valid(y) && Encode(x) == Encode(y)
    ensures Canonical(x) == Canonical(y)
  {
    DecodeEncode(x);
    DecodeEncode(y);
  }

  lemma TagTests(tag: int, payload: int)
    requires Valid(Tagged(tag, payload))
    ensures HasRefCount(MakeValue(tag, payload)) <==> tag < 0
    ensures !IsBoxedNaN(MakeValue(tag, payload)) && NormTag(MakeValue(tag, payload)) == tag
  {
  }

  lemma DoubleTests(d: Bits)
    ensures !HasRefCount(Box(d)) && NormTag(Box(d)) == TAG_FLOAT64
    ensures IsBoxedNaN(Box(d)) <==> IsNaN(d)
  {
    BoxedRange(d);
    NaNTest(d);
  }

  /** Reference counts belong to exactly the tags -9 to -1, and the NaN test holds of exactly the encoded NaNs. */
  lemma TestsAreExact(x: Value)
    requires Valid(x)
    ensures HasRefCount(Encode(x)) <==> x.Tagged? && x.tag < 0
    ensures IsBoxedNaN(Encode(x)) <==> x.Double? && IsNaN(x.bits)
    ensures NormTag(Encode(x)) == if x.Double? then TAG_FLOAT64 else x.tag
  {
    match x
    case Tagged(tag, payload) => TagTests(tag, payload);
    case Double(bits) => DoubleTests(bits);
  }

  lemma TaggedWord(v: Bits)
    requires NormTag(v) != TAG_FLOAT64
    ensures Valid(Tagged(Tag(v), IntOf(v))) && MakeValue(Tag(v), IntOf(v)) == v
  {
  }

  lemma DoubleWord(v: Bits)
    requires NormTag(v) == TAG_FLOAT64
    ensures Box(Unbox(v)) == v <==> !IsNaN(Unbox(v)) || v == BOXED_NAN
  {
    NaNTest(Unbox(v));
  }

  /** Every word is the encoding of some value, unless it is a NaN other than the canonical one. */
  lemma EncodeIsOnto(v: Bits)
    ensures Valid(Decode(v))
    ensures Encode(Decode(v)) == v <==> Decode(v).Tagged? || !IsNaN(Unbox(v)) || v == BOXED_NAN
  {
    if NormTag(v) == TAG_FLOAT64 {
      DoubleWord(v);
    } else {
      TaggedWord(v);
    }
  }
}
