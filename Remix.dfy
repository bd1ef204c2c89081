/**
 * The remix types and the local stand-in generator `mockRemix` of
 * src/App.tsx: a pure function from the user's text and the chosen type
 * to the text shown as the result.
 */
module Remix {
  import opened JsText
  import opened Options

  /** The closed set of remix styles (`RemixType`). */
  datatype RemixType = Tweet | Blog | Formal | Casual

  /** The four types in the order the selector buttons show them. */
  const AllTypes: seq<RemixType> := [Tweet, Blog, Formal, Casual]

  /** Button label of each type (the `REMIX_TYPES` record). */
  function Label(t: RemixType): (r: JsString)
    ensures |r| > 0
  {
    match t
    case Tweet => Bmp("Convertir a Tweet")
    case Blog => Bmp("Formato Blog")
    case Formal => Bmp("Tono Formal")
    case Casual => Bmp("Tono Casual")
  }

  /** The emoji and space that open a remix of each type. */
  function Prefix(t: RemixType): (r: JsString)
    ensures |r| == PrefixLength
    ensures IsHighSurrogate(r[0]) && IsLowSurrogate(r[1]) && r[2] == 0x20
  {
    match t
    case Tweet => EncodeChar('\U{1F426}') + Bmp(" ")
    case Blog => EncodeChar('\U{1F4DD}') + Bmp(" ")
    case Formal => EncodeChar('\U{1F454}') + Bmp(" ")
    case Casual => EncodeChar('\U{1F60A}') + Bmp(" ")
  }

  /** Every prefix is one surrogate pair and a space: three code units. */
  const PrefixLength: nat := 3

  /** At most this many code units of the input are kept. */
  const MaxKept: nat := 100

  /** Appended when the input was cut. */
  const Ellipsis: JsString := Bmp("...")

  /** Appended to every remix: a note that no real service was called. */
  const Trailer: JsString := Bmp("\n\n(Versi\U{F3}n de prueba - API no conectada)")

  /** Longest output `MockRemix` can produce, whatever the input. */
  const MaxRemixLength: nat := PrefixLength + MaxKept + |Ellipsis| + |Trailer|

  /** `text.slice(0, n)`: the first `n` code units, or all of `text` if it is shorter. */
  function SliceFromStart(text: JsString, n: nat): (r: JsString)
    ensures |r| == if |text| <= n then |text| else n
    ensures r <= text
  {
    if |text| <= n then text else text[..n]
  }

  /** Was the input cut? */
  predicate Truncated(text: JsString) {
    |text| > MaxKept
  }

  /** The part of a remix between the prefix and the trailer. */
  function Body(text: JsString): JsString {
    SliceFromStart(text, MaxKept) + (if Truncated(text) then Ellipsis else [])
  }

  /** `mockRemix(text, type)`: prefix, at most 100 code units of text, an
      ellipsis when the text was longer, and the fixed trailer. */
  function MockRemix(text: JsString, t: RemixType): (r: JsString)
    ensures |Trailer| == 40 && |Ellipsis| == 3
    ensures |r| == PrefixLength + (if Truncated(text) then MaxKept + |Ellipsis| else |text|) + |Trailer|
    ensures r[..PrefixLength] == Prefix(t)
    ensures r[|r| - |Trailer|..] == Trailer
    ensures |r| <= MaxRemixLength
  {
    Prefix(t) + Body(text) + Trailer
  }

  /** Every type has its own label. */
  lemma LabelsDistinct(a: RemixType, b: RemixType)
    requires Label(a) == Label(b)
    ensures a == b
  {
    assert |Label(Tweet)| == 17 && |Label(Blog)| == 12;
    assert |Label(Formal)| == |Label(Casual)| == 11;
    assert Label(Formal)[5] != Label(Casual)[5];
  }

  /** Every type has its own prefix, so a remix says which type made it. */
  lemma PrefixesDistinct(a: RemixType, b: RemixType)
    requires Prefix(a) == Prefix(b)
    ensures a == b
  {
  }

  /** The selector lists every type exactly once. */
  lemma AllTypesListedOnce(t: RemixType)
    ensures multiset(AllTypes)[t] == 1
  {
  }

  /** Between prefix and trailer a remix holds the whole text when it has at
      most 100 code units, and otherwise its first 100 followed by "...". */
  lemma MockRemixMiddle(text: JsString, t: RemixType)
    ensures var r := MockRemix(text, t);
      r[PrefixLength..|r| - |Trailer|] ==
        if |text| <= MaxKept then text else text[..MaxKept] + Bmp("...")
  {
  }

  /** The type whose prefix opens `p`, if any. */
  function TypeOfPrefix(p: JsString): (r: Option<RemixType>)
    ensures r.Some? ==> Prefix(r.value) == p
  {
    if p == Prefix(Tweet) then Some(Tweet)
    else if p == Prefix(Blog) then Some(Blog)
    else if p == Prefix(Formal) then Some(Formal)
    else if p == Prefix(Casual) then Some(Casual)
    else None
  }

  /** Splits a string shaped like a remix into its type and its body. */
  function ParseRemix(r: JsString): (p: Option<(RemixType, JsString)>)
    ensures p.Some? ==> r == Prefix(p.value.0) + p.value.1 + Trailer
  {
    if |r| < PrefixLength + |Trailer| || r[|r| - |Trailer|..] != Trailer then None
    else match TypeOfPrefix(r[..PrefixLength])
      case None => None
      case Some(t) => Some((t, r[PrefixLength..|r| - |Trailer|]))
  }

  /** Parsing a remix gives back the type and the body it was built from. */
  lemma ParseMockRemix(text: JsString, t: RemixType)
    ensures ParseRemix(MockRemix(text, t)) == Some((t, Body(text)))
  {
  }

  /** Two remixes are equal only if they have the same type and, when
      either input has at most 100 code units, the same input. */
  lemma MockRemixInjective(a: JsString, t: RemixType, b: JsString, u: RemixType)
    requires MockRemix(a, t) == MockRemix(b, u)
    ensures t == u
    ensures |a| <= MaxKept || |b| <= MaxKept ==> a == b
  {
    ParseMockRemix(a, t);
    ParseMockRemix(b, u);
    if |a| <= MaxKept || |b| <= MaxKept {
      assert Body(a) == Body(b);
      assert |Body(a)| == |Body(b)|;
      assert !Truncated(a) && !Truncated(b);
      assert Body(a) == a && Body(b) == b;
    }
  }

  /** Inputs that agree on their first 100 code units and are both longer
      give the same remix: the rest is dropped. */
  lemma MockRemixIgnoresTail(a: JsString, b: JsString, t: RemixType)
    requires |a| > MaxKept && |b| > MaxKept && a[..MaxKept] == b[..MaxKept]
    ensures MockRemix(a, t) == MockRemix(b, t)
  {
  }
}
