/** The two pure decisions of main.py: the geography rule that keeps or
    discards a posting for Ethiopia, and the normalisation of the model's
    deadline text into a stored "YYYY-MM-DD" date or no date at all. */
module Relevance {
  import opened Common
  import opened Dates
  import opened Records

  const Target: string := "ethiopia"

  /** Broad scopes that cover Ethiopia without naming it. */
  const GeneralScopes: set<string> := {
    "east africa", "horn of africa", "africa", "sub-saharan africa",
    "global", "international", "developing countries"
  }

  /** `str(g).lower().strip()`. */
  function Normalize(g: string): string {
    Strip(ToLower(g))
  }

  function NormalizeAll(gs: seq<string>): (r: seq<string>)
    ensures |r| == |gs|
    ensures forall i :: 0 <= i < |gs| ==> r[i] == Normalize(gs[i])
  {
    seq(|gs|, i requires 0 <= i < |gs| => Normalize(gs[i]))
  }

  predicate IsGeneralScope(loc: string) {
    loc in GeneralScopes
  }

  /** A location that is not one of the broad scopes: a specific country. */
  predicate IsSpecificPlace(loc: string) {
    !IsGeneralScope(loc)
  }

  /** The explanation returned beside the verdict. */
  datatype Reason =
    | ExcludesTarget
    | IncludesTarget
    | SpecificCountries(found: seq<string>)
    | GeneralScope(scopes: seq<string>)
    | NoScope(eligible: seq<string>)

  /** The geography rule, applied to the `eligible` and `excluded` lists of
      the model's reply. Relevant exactly when Ethiopia is not excluded and
      either it is named as eligible, or the eligible list is non-empty and
      names broad scopes only: a single specific other country disqualifies
      the posting even beside a broad scope, and an empty list is not
      relevant. */
  function IsRelevantForEthiopia(eligibleRaw: seq<string>, excludedRaw: seq<string>): (r: (bool, Reason))
    ensures r.0 <==>
      && Target !in NormalizeAll(excludedRaw)
      && (|| Target in NormalizeAll(eligibleRaw)
          || (|eligibleRaw| > 0 && forall i :: 0 <= i < |eligibleRaw| ==> IsGeneralScope(Normalize(eligibleRaw[i]))))
    ensures Target in NormalizeAll(excludedRaw) ==> r == (false, ExcludesTarget)
  {
    var eligible := NormalizeAll(eligibleRaw);
    var excluded := NormalizeAll(excludedRaw);
    if Target in excluded then (false, ExcludesTarget)
    else if Target in eligible then (true, IncludesTarget)
    else
      var specific := Filter(eligible, IsSpecificPlace);
      if specific != [] then (false, SpecificCountries(specific))
      else
        var acceptable := Filter(eligible, IsGeneralScope);
        FilterComplement(eligible, IsGeneralScope, IsSpecificPlace);
        if acceptable != [] then
          (true, GeneralScope(acceptable))
        else
          (false, NoScope(eligible))
  }

  /** Lower-casing a capitalised word. */
  lemma LowerCapitalized(c: char, rest: string)
    requires IsUpper(c) && forall i :: 0 <= i < |rest| ==> !IsUpper(rest[i])
    ensures ToLower([c] + rest) == [LowerChar(c)] + rest
  {
    ToLowerConcat([c], rest);
    ToLowerNoUpper(rest);
  }

  lemma NormalizeEastAfrica(g: string)
    requires g == "East Africa"
    ensures Normalize(g) == "east africa"
  {
    assert "East Africa" == "E" + "ast " + ("A" + "frica");
    ToLowerConcat("E" + "ast ", "A" + "frica");
    LowerCapitalized('E', "ast ");
    LowerCapitalized('A', "frica");
    assert ToLower("East Africa") == "east africa";
    StripUnpadded("east africa");
  }

  lemma NormalizeCountry(c: char, rest: string)
    requires IsUpper(c) && rest != [] && forall i :: 0 <= i < |rest| ==> IsLower(rest[i])
    ensures Normalize([c] + rest) == [LowerChar(c)] + rest
  {
    LowerCapitalized(c, rest);
    StripUnpadded([LowerChar(c)] + rest);
  }

  /** Ethiopia named among the eligible places, and not excluded, makes
      the posting relevant whatever else is listed. */
  lemma TargetIncluded(eligibleRaw: seq<string>, excludedRaw: seq<string>)
    requires Target in NormalizeAll(eligibleRaw) && Target !in NormalizeAll(excludedRaw)
    ensures IsRelevantForEthiopia(eligibleRaw, excludedRaw) == (true, IncludesTarget)
  {
  }

  /** Ethiopia is not itself a broad scope: no broad scope has its length. */
  lemma TargetIsSpecific()
    ensures IsSpecificPlace(Target)
  {
    forall g | g in GeneralScopes
      ensures |g| != |Target|
    {
    }
  }

  /** Eligible places that are all broad scopes make the posting relevant,
      when Ethiopia is not excluded; the reason lists those scopes. */
  lemma BroadScopesOnly(eligibleRaw: seq<string>, excludedRaw: seq<string>)
    requires Target !in NormalizeAll(excludedRaw)
    requires |eligibleRaw| > 0 && forall i | 0 <= i < |eligibleRaw| :: IsGeneralScope(Normalize(eligibleRaw[i]))
    ensures IsRelevantForEthiopia(eligibleRaw, excludedRaw) == (true, GeneralScope(NormalizeAll(eligibleRaw)))
  {
    var eligible := NormalizeAll(eligibleRaw);
    TargetIsSpecific();
    assert Target !in eligible;
    FilterAll(eligible, IsGeneralScope);
    FilterComplement(eligible, IsGeneralScope, IsSpecificPlace);
  }

  /** "Ethiopia", as the model writes it, normalises to the target. */
  lemma NormalizeEthiopia(g: string)
    requires g == "Ethiopia"
    ensures Normalize(g) == Target
  {
    NormalizeCountry('E', "thiopia");
    assert g == ['E'] + "thiopia" && LowerChar('E') == 'e';
  }

  /** "East Africa", normalised, is the broad scope "east africa". */
  lemma EastAfricaEligible(eligible: seq<string>)
    requires eligible == ["East Africa"]
    ensures NormalizeAll(eligible) == ["east africa"]
    ensures |eligible| > 0 && forall i | 0 <= i < |eligible| :: IsGeneralScope(Normalize(eligible[i]))
  {
    NormalizeEastAfrica(eligible[0]);
    assert "east africa" in GeneralScopes;
    assert NormalizeAll(eligible)[0] == Normalize(eligible[0]);
  }

  /** Normalising never lengthens a text. */
  lemma NormalizeShortens(g: string)
    ensures |Normalize(g)| <= |g|
  {
  }

  /** "Somalia", normalised, is not Ethiopia: it is too short. */
  lemma SomaliaExcluded(excluded: seq<string>)
    requires excluded == ["Somalia"]
    ensures Target !in NormalizeAll(excluded)
  {
    var normalized := NormalizeAll(excluded);
    NormalizeShortens(excluded[0]);
    assert |excluded[0]| < |Target|;
    assert |normalized| == 1 && |normalized[0]| < |Target|;
  }

  /** Worked example: a posting open to East Africa that excludes Somalia is
      relevant through the broad scope "east africa". */
  lemma EastAfricaExample(eligible: seq<string>, excluded: seq<string>)
    requires eligible == ["East Africa"] && excluded == ["Somalia"]
    ensures IsRelevantForEthiopia(eligible, excluded) == (true, GeneralScope(["east africa"]))
  {
    EastAfricaEligible(eligible);
    SomaliaExcluded(excluded);
    BroadScopesOnly(eligible, excluded);
  }

  /** One specific place among the eligible ones disqualifies the posting,
      whatever broad scopes stand beside it, and the reason names it. */
  lemma SpecificPlaceDisqualifies(eligibleRaw: seq<string>, excludedRaw: seq<string>, i: int)
    requires 0 <= i < |eligibleRaw| && IsSpecificPlace(Normalize(eligibleRaw[i]))
    requires Target !in NormalizeAll(eligibleRaw)
    ensures var r := IsRelevantForEthiopia(eligibleRaw, excludedRaw);
      && !r.0
      && (r.1 == ExcludesTarget || (r.1.SpecificCountries? && Normalize(eligibleRaw[i]) in r.1.found))
  {
  }

  // -----------------------------------------------------------------------
  // Deadline normalisation
  // -----------------------------------------------------------------------

  const NonDateKeywords: seq<string> := ["rolling", "ongoing", "specified", "quarterly", "n/a"]

  predicate HasNonDateKeyword(s: string) {
    exists k | k in NonDateKeywords :: Contains(ToLower(s), k)
  }

  /** A deadline value the parser is asked to read: a non-empty string
      naming no non-date keyword. */
  predicate DateCandidate(deadline: Option<JsonValue>) {
    && deadline.Some? && deadline.value.JStr? && deadline.value.s != ""
    && !HasNonDateKeyword(deadline.value.s)
  }

  /** `validate_and_clean_deadline`: None for a missing, empty or non-string
      value, for a text naming a non-date keyword, and for a text the date
      parser rejects with ValueError or TypeError; otherwise the parsed
      date as "YYYY-MM-DD". `parse` stands for dateutil's parser, whose
      other errors (OverflowError for a number too large for a date) are
      not caught and leave the call. */
  function ValidateAndCleanDeadline(deadline: Option<JsonValue>, parse: string -> Completion<Option<CalendarDate>>)
    : (r: Completion<Option<string>>)
    ensures r.Raised? <==> DateCandidate(deadline) && parse(deadline.value.s).Raised?
    ensures r.Normal? && r.value.Some? <==>
      DateCandidate(deadline) && parse(deadline.value.s).Normal? && parse(deadline.value.s).value.Some?
    ensures r.Normal? && r.value.Some? ==>
      && r.value.value == FormatIso(parse(deadline.value.s).value.value)
      && |r.value.value| == 10 && ParseIso(r.value.value) == parse(deadline.value.s).value
  {
    if deadline.None? || !deadline.value.JStr? || deadline.value.s == "" then Normal(None)
    else
      var text := deadline.value.s;
      if HasNonDateKeyword(text) then Normal(None)
      else match parse(text)
        case Raised => Raised
        case Normal(None) => Normal(None)
        case Normal(Some(d)) =>
          FormatParseRoundTrip(d);
          Normal(Some(FormatIso(d)))
  }

  /** The model's "Rolling", "Not Specified" and "N/A" answers, in any
      letter case, are stored without a date whatever the parser would
      make of them. */
  lemma KeywordDeadlinesHaveNoDate(text: string, parse: string -> Completion<Option<CalendarDate>>)
    requires ToLower(text) in {"rolling", "not specified", "n/a"}
    ensures ValidateAndCleanDeadline(Some(JStr(text)), parse) == Normal(None)
  {
    var low := ToLower(text);
    if low == "rolling" {
      assert OccursAt(low, "rolling", 0);
      assert "rolling" in NonDateKeywords && Contains(low, "rolling");
    } else if low == "not specified" {
      assert low[4..13] == "specified";
      assert OccursAt(low, "specified", 4);
      assert "specified" in NonDateKeywords && Contains(low, "specified");
    } else {
      assert OccursAt(low, "n/a", 0);
      assert "n/a" in NonDateKeywords && Contains(low, "n/a");
    }
  }
}
