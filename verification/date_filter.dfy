/**
  The submission-year filter string sent as `fq`. It is an Apache Solr range
  query on `submittedDateY_i` whose opening `[` includes the lower bound and
  whose closing `}` excludes the upper bound.
 */
module DateFilter {
  import opened Wrappers
  import Decimal
  import Text

  const Prefix: string := "submittedDateY_i:["
  const Separator: string := " TO "
  const Close: char := '}'

  /** `submittedDateY_i:[<lower> TO <upper>}` with both bounds in decimal. */
  function Render(lower: int, upper: int): string {
    Prefix + Decimal.IntToString(lower) + Separator + Decimal.IntToString(upper) + [Close]
  }

  /** Reads the two bounds back out of a filter string; None if it is not one. */
  function Parse(s: string): Option<(int, int)> {
    if |s| < |Prefix| + 1 || s[..|Prefix|] != Prefix || s[|s| - 1] != Close then None
    else ParseBounds(s[|Prefix|..|s| - 1])
  }

  /** Reads `<lower> TO <upper>`, splitting at the first space. */
  function ParseBounds(body: string): Option<(int, int)> {
    match Text.FirstIndex(body, ' ')
    case None => None
    case Some(i) =>
      if i + |Separator| <= |body| && body[i..i + |Separator|] == Separator then
        match (Decimal.ParseInt(body[..i]), Decimal.ParseInt(body[i + |Separator|..]))
        case (Some(lower), Some(upper)) => Some((lower, upper))
        case _ => None
      else None
  }

  /** A year satisfies `[lower TO upper}` when lower <= year < upper. */
  predicate Matches(year: int, lower: int, upper: int) {
    lower <= year < upper
  }

  lemma ParseBoundsRender(lower: int, upper: int)
    ensures ParseBounds(Decimal.IntToString(lower) + Separator + Decimal.IntToString(upper)) == Some((lower, upper))
  {
    var a := Decimal.IntToString(lower);
    var b := Decimal.IntToString(upper);
    var body := a + Separator + b;
    assert ' ' !in a;
    var rest := "TO " + b;
    assert body == a + [' '] + rest;
    Text.FirstIndexAfterFreePrefix(a, rest, ' ');
    assert Text.FirstIndex(body, ' ') == Some(|a|);
    assert body[|a|..|a| + |Separator|] == Separator;
    assert body[..|a|] == a;
    assert body[|a| + |Separator|..] == b;
    Decimal.ParseIntToString(lower);
    Decimal.ParseIntToString(upper);
  }

  /** The rendered filter carries exactly the two bounds, in order. */
  lemma ParseRender(lower: int, upper: int)
    ensures Parse(Render(lower, upper)) == Some((lower, upper))
  {
    var body := Decimal.IntToString(lower) + Separator + Decimal.IntToString(upper);
    var s := Render(lower, upper);
    assert s == Prefix + body + [Close];
    assert s[..|Prefix|] == Prefix;
    assert s[|Prefix|..|s| - 1] == body;
    ParseBoundsRender(lower, upper);
  }

  /** Different bounds give different filter strings. */
  lemma RenderInjective(l1: int, u1: int, l2: int, u2: int)
    ensures Render(l1, u1) == Render(l2, u2) <==> l1 == l2 && u1 == u2
  {
    ParseRender(l1, u1);
    ParseRender(l2, u2);
  }

  /** The range is empty exactly when the lower bound is not below the upper one. */
  lemma EmptyRange(lower: int, upper: int)
    ensures (forall year :: !Matches(year, lower, upper)) <==> upper <= lower
  {
    if lower < upper {
      assert Matches(lower, lower, upper);
    }
  }
}
