/**
 * The keyword-based crime-type classifier (`predictCrimeType`).
 *
 * The description is lowercased; for each category of a fixed, ordered
 * keyword table the number of its keywords that occur as substrings is
 * counted; the first category with the strictly largest positive count wins,
 * "Other" when every count is zero. Confidence is `min(m / 3 * 100, 95)` for
 * the winning count `m`, computed here exactly over the reals, and the risk
 * level is derived from the confidence.
 */
module Classifier {
  import opened Text

  datatype RiskLevel = Low | Medium | High

  datatype Prediction = Prediction(
    predictedType: string,
    confidence: real,
    riskLevel: RiskLevel,
    subCategories: seq<string>)

  /** One row of the keyword table: a category label and its lowercase keywords. */
  datatype Category = Category(name: string, keywords: seq<string>)

  /** The label returned when no keyword of any category occurs. */
  const Other: string := "Other"

  /** The keyword table, in the order in which categories are examined. */
  const CrimeKeywords: seq<Category> := [
    Category("Financial Fraud (UPI/Banking)", ["upi", "bank", "account", "transaction", "money", "payment"]),
    Category("Social Media Crime", ["social", "media", "profile", "facebook", "instagram", "twitter"]),
    Category("Identity Theft", ["identity", "personal", "documents", "card", "stolen"]),
    Category("Cyberbullying/Harassment", ["harass", "bully", "threat", "message", "stalking"]),
    Category("Data Breach", ["breach", "hack", "data", "leaked", "exposed"]),
    Category("Ransomware Attack", ["ransom", "encrypt", "locked", "files", "bitcoin"]),
    Category("Online Shopping Fraud", ["shopping", "order", "product", "delivery", "fake"]),
    Category("Phishing/Scam Emails", ["email", "phishing", "scam", "link", "password"])
  ]

  // ------------------------------------------------------------ match counts

  predicate Distinct(s: seq<string>) {
    forall i, j :: 0 <= i < j < |s| ==> s[i] != s[j]
  }

  /** The length of `keywords.filter(k => text.includes(k))`. */
  function MatchCount(text: string, keywords: seq<string>): (m: nat)
    ensures m <= |keywords|
  {
    if keywords == [] then 0
    else (if Contains(text, keywords[0]) then 1 else 0) + MatchCount(text, keywords[1..])
  }

  /** The keywords of a list that occur in the text. */
  ghost function FoundKeywords(text: string, keywords: seq<string>): set<string> {
    set k | k in keywords && Contains(text, k)
  }

  /**
   * With distinct keywords, the count is the number of distinct keywords found:
   * how often a keyword occurs in the text does not matter.
   */
  lemma {:induction false} MatchCountIsFoundKeywords(text: string, keywords: seq<string>)
    requires Distinct(keywords)
    ensures MatchCount(text, keywords) == |FoundKeywords(text, keywords)|
  {
    if keywords != [] {
      var rest := keywords[1..];
      assert Distinct(rest) by {
        forall i, j | 0 <= i < j < |rest| ensures rest[i] != rest[j] {
          assert rest[i] == keywords[i + 1] && rest[j] == keywords[j + 1];
        }
      }
      MatchCountIsFoundKeywords(text, rest);
      var k := keywords[0];
      assert k !in rest by {
        forall j | 0 <= j < |rest| ensures rest[j] != k {
          assert rest[j] == keywords[j + 1];
        }
      }
      if Contains(text, k) {
        assert FoundKeywords(text, keywords) == FoundKeywords(text, rest) + {k};
      } else {
        assert FoundKeywords(text, keywords) == FoundKeywords(text, rest);
      }
    }
  }

  /** A text in which no keyword occurs has count zero. */
  lemma {:induction false} MatchCountZero(text: string, keywords: seq<string>)
    requires forall k :: k in keywords ==> !Contains(text, k)
    ensures MatchCount(text, keywords) == 0
  {
    if keywords != [] {
      MatchCountZero(text, keywords[1..]);
    }
  }

  /** Appending text never lowers a count. */
  lemma {:induction false} MatchCountAppend(text: string, more: string, keywords: seq<string>)
    ensures MatchCount(text, keywords) <= MatchCount(text + more, keywords)
  {
    if keywords != [] {
      MatchCountAppend(text, more, keywords[1..]);
      if Contains(text, keywords[0]) {
        ContainsAppend(text, more, keywords[0]);
      }
    }
  }

  /** The count of every category of `table` against an already lowercased text. */
  function Counts(table: seq<Category>, text: string): seq<nat> {
    seq(|table|, i requires 0 <= i < |table| => MatchCount(text, table[i].keywords))
  }

  // --------------------------------------------------- maximum and its first holder

  function Max(a: nat, b: nat): nat {
    if a < b then b else a
  }

  /** The largest count, 0 for no categories (the accumulator starts at 0). */
  function MaxOf(s: seq<nat>): (m: nat)
    ensures forall i :: 0 <= i < |s| ==> s[i] <= m
    ensures m > 0 ==> m in s
  {
    if s == [] then 0 else Max(MaxOf(s[..|s| - 1]), s[|s| - 1])
  }

  /** The position of the first occurrence of `m` in `s`. */
  function FirstIndexOf(s: seq<nat>, m: nat): (k: nat)
    requires m in s
    ensures k < |s| && s[k] == m
    ensures forall j :: 0 <= j < k ==> s[j] != m
  {
    if s[0] == m then 0 else 1 + FirstIndexOf(s[1..], m)
  }

  /** Extending the counts by one value extends the maximum by that value. */
  lemma MaxOfSnoc(s: seq<nat>, x: nat)
    ensures MaxOf(s + [x]) == Max(MaxOf(s), x)
  {
    assert (s + [x])[..|s|] == s;
  }

  /** Any position that holds `m` with no earlier `m` is the one `FirstIndexOf` finds. */
  lemma FirstIndexOfUnique(s: seq<nat>, m: nat, k: nat)
    requires k < |s| && s[k] == m
    requires forall j :: 0 <= j < k ==> s[j] != m
    ensures FirstIndexOf(s, m) == k
  {
  }

  /** Position `w` holds the winner: a positive maximum that no earlier position reaches. */
  ghost predicate IsWinner(counts: seq<nat>, w: int) {
    0 <= w < |counts| && counts[w] > 0 &&
    (forall j :: 0 <= j < |counts| ==> counts[j] <= counts[w]) &&
    (forall j :: 0 <= j < w ==> counts[j] < counts[w])
  }

  /**
   * The scan's accumulators after examining `seen`: the running maximum and
   * the position of its first holder, -1 while no count is positive.
   */
  ghost predicate Leads(seen: seq<nat>, maxMatches: nat, winner: int) {
    maxMatches == MaxOf(seen) &&
    (maxMatches == 0 ==> winner == -1) &&
    (maxMatches > 0 ==> 0 <= winner < |seen| && winner == FirstIndexOf(seen, maxMatches))
  }

  /** One step of the scan: only a strictly larger count takes the lead. */
  lemma LeadsStep(seen: seq<nat>, maxMatches: nat, winner: int, x: nat)
    requires Leads(seen, maxMatches, winner)
    ensures x > maxMatches ==> Leads(seen + [x], x, |seen|)
    ensures x <= maxMatches ==> Leads(seen + [x], maxMatches, winner)
  {
    MaxOfSnoc(seen, x);
    if x > maxMatches {
      FirstIndexOfUnique(seen + [x], x, |seen|);
    } else if maxMatches > 0 {
      FirstIndexOfUnique(seen + [x], maxMatches, winner);
    }
  }

  // ------------------------------------------------------- confidence and risk

  /** `Math.min((m / 3) * 100, 95)`, exactly. */
  function Confidence(m: nat): (c: real)
    ensures 0.0 <= c <= 95.0
    ensures m >= 3 ==> c == 95.0
    ensures m < 3 ==> c * 3.0 == m as real * 100.0
  {
    var raw := m as real / 3.0 * 100.0;
    if raw <= 95.0 then raw else 95.0
  }

  /** The risk level: medium, overridden by high above 80 and by low below 40. */
  function RiskOf(confidence: real): (r: RiskLevel)
    ensures r == Low <==> confidence < 40.0
    ensures r == High <==> confidence > 80.0
    ensures r == Medium <==> 40.0 <= confidence <= 80.0
  {
    if confidence < 40.0 then Low
    else if confidence > 80.0 then High
    else Medium
  }

  /** Confidence never decreases as the winning count grows. */
  lemma ConfidenceMonotone(m: nat, n: nat)
    requires m <= n
    ensures Confidence(m) <= Confidence(n)
  {
  }

  /** Risk as a function of the winning count: 0 or 1 is low, 2 medium, 3 or more high. */
  lemma RiskByMatches(m: nat)
    ensures RiskOf(Confidence(m)) == if m <= 1 then Low else if m == 2 then Medium else High
  {
  }

  // ----------------------------------------------------------- the classifier

  /**
   * The classification of `description` against `table`: the first category
   * whose count is the maximum, when that maximum is positive.
   */
  function Classify(table: seq<Category>, description: string): (r: Prediction)
    ensures r.subCategories == []
    ensures 0.0 <= r.confidence <= 95.0
    ensures r.predictedType == Other || exists i :: 0 <= i < |table| && table[i].name == r.predictedType
  {
    var counts := Counts(table, Lower(description));
    var m := MaxOf(counts);
    var chosen := if m == 0 then Other else table[FirstIndexOf(counts, m)].name;
    Prediction(chosen, Confidence(m), RiskOf(Confidence(m)), [])
  }

  /**
   * `predictCrimeType`: one pass over the keyword table keeping the strictly
   * best count. The table is a parameter; the page passes `CrimeKeywords`.
   */
  method PredictCrimeType(table: seq<Category>, description: string) returns (r: Prediction)
    ensures r == Classify(table, description)
  {
    var descLower := Lower(description);
    var maxMatches: nat := 0;
    var predictedType := Other;
    ghost var seen: seq<nat> := [];
    ghost var winner: int := -1;
    var i := 0;
    while i < |table|
      invariant 0 <= i <= |table| && |seen| == i
      invariant seen == Counts(table, descLower)[..i]
      invariant Leads(seen, maxMatches, winner)
      invariant predictedType == if winner < 0 then Other else table[winner].name
    {
      var matches := MatchCount(descLower, table[i].keywords);
      assert Counts(table, descLower)[..i + 1] == seen + [matches];
      LeadsStep(seen, maxMatches, winner, matches);
      if matches > maxMatches {
        maxMatches := matches;
        predictedType := table[i].name;
        winner := i;
      }
      seen := seen + [matches];
      i := i + 1;
    }
    assert Counts(table, descLower)[..i] == Counts(table, descLower);
    var confidence := Confidence(maxMatches);
    var riskLevel := Medium;
    if confidence > 80.0 {
      riskLevel := High;
    }
    if confidence < 40.0 {
      riskLevel := Low;
    }
    r := Prediction(predictedType, confidence, riskLevel, []);
  }

  // ------------------------------------------------------------------ lemmas

  /**
   * The label is "Other" exactly when no category has a match (for tables
   * without a category named "Other"); otherwise it is the label of the
   * winner, the first category holding the maximum count.
   */
  lemma ClassifyPicksFirstMaximum(table: seq<Category>, description: string)
    requires forall i :: 0 <= i < |table| ==> table[i].name != Other
    ensures (forall j :: 0 <= j < |table| ==> Counts(table, Lower(description))[j] == 0)
        ==> Classify(table, description).predictedType == Other
    ensures Classify(table, description).predictedType == Other
        ==> forall j :: 0 <= j < |table| ==> Counts(table, Lower(description))[j] == 0
    ensures Classify(table, description).predictedType != Other ==>
        exists w :: IsWinner(Counts(table, Lower(description)), w)
               && table[w].name == Classify(table, description).predictedType
               && Classify(table, description).confidence == Confidence(Counts(table, Lower(description))[w])
  {
    var counts := Counts(table, Lower(description));
    var m := MaxOf(counts);
    if m > 0 {
      var w := FirstIndexOf(counts, m);
      assert IsWinner(counts, w);
      assert Classify(table, description).predictedType == table[w].name;
      assert counts[w] > 0;
    }
  }

  /** A description containing no keyword at all yields "Other", confidence 0 and low risk. */
  lemma NoKeywordMeansOther(table: seq<Category>, description: string)
    requires forall i, k :: 0 <= i < |table| && k in table[i].keywords ==> !Contains(Lower(description), k)
    ensures Classify(table, description) == Prediction(Other, 0.0, Low, [])
  {
    var counts := Counts(table, Lower(description));
    forall i | 0 <= i < |table| ensures counts[i] == 0 {
      MatchCountZero(Lower(description), table[i].keywords);
    }
  }

  predicate NonEmptyKeywords(table: seq<Category>) {
    forall i, k :: 0 <= i < |table| && k in table[i].keywords ==> k != []
  }

  /** The empty description is classified "Other" with confidence 0 and low risk. */
  lemma EmptyDescriptionIsOther(table: seq<Category>)
    requires NonEmptyKeywords(table)
    ensures Classify(table, "") == Prediction(Other, 0.0, Low, [])
  {
    forall i, k | 0 <= i < |table| && k in table[i].keywords ensures !Contains(Lower(""), k) {
      EmptyContainsOnlyEmpty(k);
    }
    NoKeywordMeansOther(table, "");
  }

  /** Case does not matter: a description and its lowercase form classify alike. */
  lemma ClassifyIgnoresCase(table: seq<Category>, description: string)
    ensures Classify(table, Lower(description)) == Classify(table, description)
  {
    LowerIdempotent(description);
  }

  /** Adding text to a description never lowers the confidence. */
  lemma MoreTextNeverLowersConfidence(table: seq<Category>, description: string, more: string)
    ensures Classify(table, description).confidence <= Classify(table, description + more).confidence
  {
    LowerAppend(description, more);
    var before := Counts(table, Lower(description));
    var after := Counts(table, Lower(description + more));
    forall i | 0 <= i < |table| ensures before[i] <= after[i] {
      MatchCountAppend(Lower(description), Lower(more), table[i].keywords);
    }
    var m := MaxOf(before);
    if m > 0 {
      var w := FirstIndexOf(before, m);
      assert m <= after[w];
    }
    ConfidenceMonotone(MaxOf(before), MaxOf(after));
  }

  /** The shipped table has eight categories, none named "Other", all with distinct names. */
  lemma CrimeKeywordsNames()
    ensures |CrimeKeywords| == 8
    ensures forall i :: 0 <= i < |CrimeKeywords| ==> CrimeKeywords[i].name != Other
    ensures forall i, j :: 0 <= i < j < |CrimeKeywords| ==> CrimeKeywords[i].name != CrimeKeywords[j].name
  {
  }

  /** Every category of the shipped table has 5 or 6 distinct, non-empty keywords. */
  lemma CrimeKeywordsLists()
    ensures NonEmptyKeywords(CrimeKeywords)
    ensures forall i :: 0 <= i < |CrimeKeywords| ==>
      5 <= |CrimeKeywords[i].keywords| <= 6 && Distinct(CrimeKeywords[i].keywords)
  {
  }
}
