/**
 * The complaint dashboard (`Dashboard` page): the sign-in gate and the
 * loading (or demo seeding) of the stored complaints, the search filter,
 * the status counters, the status badge and what a card shows to users and
 * to administrators.
 */
module Dashboard {
  import opened Common
  import opened Text
  import opened Records
  import FileComplaint

  // ------------------------------------------------------------ status badge

  datatype BadgeVariant = Default | Secondary | Outline

  /** `getStatusVariant`: the badge for a status, compared case-insensitively. */
  function StatusVariant(status: string): (v: BadgeVariant)
    ensures v == Default <==> Lower(status) == "investigating"
    ensures v == Outline <==> Lower(status) == "resolved"
    ensures v == Secondary <==> Lower(status) != "investigating" && Lower(status) != "resolved"
  {
    match Lower(status)
    case "pending" => Secondary
    case "investigating" => Default
    case "resolved" => Outline
    case _ => Secondary
  }

  /** The badge depends only on the lowercase form of the status. */
  lemma StatusVariantIgnoresCase(status: string)
    ensures StatusVariant(Lower(status)) == StatusVariant(status)
  {
    LowerIdempotent(status);
  }

  // ------------------------------------------------------------------ search

  /** A complaint is shown when the lowercased term occurs in its lowercased ID or crime type. */
  predicate MatchesSearch(c: Complaint, term: string)
    ensures term == "" ==> MatchesSearch(c, term)
  {
    Contains(Lower(c.id), Lower(term)) || Contains(Lower(c.crimeType), Lower(term))
  }

  /** Matching, restated: the lowercased term occurs at some offset of the lowercased ID or crime type. */
  lemma MatchesSearchIffOccurs(c: Complaint, term: string)
    ensures MatchesSearch(c, term) ==>
      (exists i :: OccursAt(Lower(c.id), Lower(term), i)) || (exists i :: OccursAt(Lower(c.crimeType), Lower(term), i))
    ensures ((exists i :: OccursAt(Lower(c.id), Lower(term), i)) || (exists i :: OccursAt(Lower(c.crimeType), Lower(term), i)))
      ==> MatchesSearch(c, term)
  {
    ContainsIffOccurs(Lower(c.id), Lower(term));
    ContainsIffOccurs(Lower(c.crimeType), Lower(term));
    if Contains(Lower(c.id), Lower(term)) {
      assert exists i :: OccursAt(Lower(c.id), Lower(term), i);
    } else if Contains(Lower(c.crimeType), Lower(term)) {
      assert exists i :: OccursAt(Lower(c.crimeType), Lower(term), i);
    }
  }

  /** `filteredComplaints`: the complaints that match the search term, in their stored order. */
  function FilterComplaints(complaints: seq<Complaint>, term: string): (r: seq<Complaint>)
    ensures |r| <= |complaints|
    ensures forall c :: c in r <==> c in complaints && MatchesSearch(c, term)
    ensures forall c :: multiset(r)[c] == if MatchesSearch(c, term) then multiset(complaints)[c] else 0
  {
    if complaints == [] then []
    else
      assert complaints == [complaints[0]] + complaints[1..];
      (if MatchesSearch(complaints[0], term) then [complaints[0]] else []) + FilterComplaints(complaints[1..], term)
  }

  /** `a` is obtained from `b` by deleting elements, keeping the order of the rest. */
  predicate IsSubsequence<T(==)>(a: seq<T>, b: seq<T>)
    decreases |b|
  {
    if a == [] then true
    else if b == [] then false
    else (a[0] == b[0] && IsSubsequence(a[1..], b[1..])) || IsSubsequence(a, b[1..])
  }

  /** Filtering only deletes: the result is an order-preserving subsequence. */
  lemma {:induction false} FilterIsSubsequence(complaints: seq<Complaint>, term: string)
    ensures IsSubsequence(FilterComplaints(complaints, term), complaints)
  {
    if complaints != [] {
      var rest := FilterComplaints(complaints[1..], term);
      FilterIsSubsequence(complaints[1..], term);
      if MatchesSearch(complaints[0], term) {
        assert FilterComplaints(complaints, term) == [complaints[0]] + rest;
        assert ([complaints[0]] + rest)[1..] == rest;
      } else {
        assert FilterComplaints(complaints, term) == rest;
      }
    }
  }

  /** An empty search term keeps every complaint. */
  lemma {:induction false} EmptySearchKeepsAll(complaints: seq<Complaint>)
    ensures FilterComplaints(complaints, "") == complaints
  {
    if complaints != [] {
      assert Contains(Lower(complaints[0].id), Lower(""));
      EmptySearchKeepsAll(complaints[1..]);
    }
  }

  /** The case of the search term does not matter. */
  lemma {:induction false} SearchIgnoresCase(complaints: seq<Complaint>, term: string)
    ensures FilterComplaints(complaints, Lower(term)) == FilterComplaints(complaints, term)
  {
    LowerIdempotent(term);
    if complaints != [] {
      SearchIgnoresCase(complaints[1..], term);
    }
  }

  // ------------------------------------------------------------------- stats

  /** `complaints.filter(c => c.status === status).length`: exact, case-sensitive matches. */
  function CountStatus(complaints: seq<Complaint>, status: string): (n: nat)
    ensures n <= |complaints|
  {
    if complaints == [] then 0
    else (if complaints[0].status == status then 1 else 0) + CountStatus(complaints[1..], status)
  }

  /** Two different statuses are counted among disjoint complaints. */
  lemma {:induction false} DistinctStatusCounts(complaints: seq<Complaint>, s1: string, s2: string)
    requires s1 != s2
    ensures CountStatus(complaints, s1) + CountStatus(complaints, s2) <= |complaints|
  {
    if complaints != [] {
      DistinctStatusCounts(complaints[1..], s1, s2);
    }
  }

  /** Counting over a concatenation adds the counts of the parts. */
  lemma {:induction false} CountStatusAppend(a: seq<Complaint>, b: seq<Complaint>, status: string)
    ensures CountStatus(a + b, status) == CountStatus(a, status) + CountStatus(b, status)
  {
    if a == [] {
      assert a + b == b;
    } else {
      assert (a + b)[1..] == a[1..] + b;
      CountStatusAppend(a[1..], b, status);
    }
  }

  datatype Stats = Stats(total: nat, pending: nat, investigating: nat)

  /** The three counters: all complaints, those "Pending" and those "Investigating". */
  function ComplaintStats(complaints: seq<Complaint>): (s: Stats)
    ensures s.total == |complaints|
    ensures s.pending + s.investigating <= s.total
  {
    DistinctStatusCounts(complaints, "Pending", "Investigating");
    Stats(|complaints|, CountStatus(complaints, "Pending"), CountStatus(complaints, "Investigating"))
  }

  /** A complaint filed through the wizard adds one to the total and one to the pending count. */
  lemma FilingAddsOnePending(complaints: seq<Complaint>, form: FileComplaint.FormData, timestamp: nat, filedDate: string)
    ensures var filed := FileComplaint.NewComplaint(form, FileComplaint.ComplaintId(timestamp), filedDate);
      var before := ComplaintStats(complaints);
      ComplaintStats(complaints + [filed]) == Stats(before.total + 1, before.pending + 1, before.investigating)
  {
    var filed := FileComplaint.NewComplaint(form, FileComplaint.ComplaintId(timestamp), filedDate);
    CountStatusAppend(complaints, [filed], "Pending");
    CountStatusAppend(complaints, [filed], "Investigating");
  }

  // -------------------------------------------------------------- card view

  /** The card title: the crime type for administrators, otherwise "Complaint #" and `id.slice(2, 10)`. */
  function CardTitle(c: Complaint, isAdmin: bool): (t: string)
    ensures isAdmin ==> t == c.crimeType
    ensures !isAdmin ==> |t| >= 11 && t[..11] == "Complaint #"
    ensures !isAdmin ==> |t| == 11 + (if |c.id| <= 2 then 0 else Min(|c.id|, 10) - 2)
    ensures !isAdmin ==> forall i :: 11 <= i < |t| ==> t[i] == c.id[i - 9]
  {
    if isAdmin then c.crimeType else "Complaint #" + Slice(c.id, 2, 10)
  }

  /** For an ID the wizard generated, a user's card title shows exactly the digits after "CC". */
  lemma UserTitleShowsIdDigits(c: Complaint, timestamp: nat)
    requires c.id == FileComplaint.ComplaintId(timestamp)
    ensures CardTitle(c, false) == "Complaint #" + c.id[2..]
    ensures DigitsValue(CardTitle(c, false)[11..]) == timestamp % 100_000_000
  {
    var t := CardTitle(c, false);
    assert Slice(c.id, 2, 10) == c.id[2..];
    assert t[11..] == c.id[2..];
    FileComplaint.ComplaintIdDigits(timestamp);
  }

  /** The guidance steps a card lists: the first three, to administrators only. */
  function ShownGuidanceSteps(c: Complaint, isAdmin: bool): (r: seq<string>)
    ensures |r| <= 3
    ensures !isAdmin || c.aiGuidance.None? ==> r == []
    ensures isAdmin && c.aiGuidance.Some? ==>
      |r| == (if |c.aiGuidance.value.steps| < 3 then |c.aiGuidance.value.steps| else 3) &&
      r == c.aiGuidance.value.steps[..|r|]
  {
    if isAdmin && c.aiGuidance.Some? then
      var steps := c.aiGuidance.value.steps;
      steps[..if |steps| < 3 then |steps| else 3]
    else []
  }

  // --------------------------------------------------------------- demo data

  /** The two demo complaints written when no list was ever stored; the dates are those of two and five days ago. */
  function DemoComplaints(twoDaysAgo: string, fiveDaysAgo: string): (r: seq<Complaint>)
    ensures |r| == 2 && r[0].id != r[1].id
    ensures forall c :: c in r ==> |c.id| == 10 && c.id[..2] == "CC"
    ensures forall c :: c in r ==> forall j :: 2 <= j < 10 ==> IsDigit(c.id[j])
  {
    [
      Complaint("CC12345678", "Demo User", "Financial Fraud (UPI/Banking)",
        "Unauthorized UPI transaction from my account", "Investigating", twoDaysAgo, None,
        Some(Guidance("Immediate Safety Measures",
          ["✓ Contact your bank immediately", "✓ Block your cards and UPI", "✓ File FIR at local police station"],
          None, None))),
      Complaint("CC87654321", "Demo User", "Social Media Crime",
        "Fake profile using my photos", "Pending", fiveDaysAgo, None, None)
    ]
  }

  /** The seeded dashboard counts two complaints: one pending, one under investigation. */
  lemma DemoStats(twoDaysAgo: string, fiveDaysAgo: string)
    ensures ComplaintStats(DemoComplaints(twoDaysAgo, fiveDaysAgo)) == Stats(2, 1, 1)
  {
    var demo := DemoComplaints(twoDaysAgo, fiveDaysAgo);
    assert demo[1..] == [demo[1]];
    assert demo[1..][1..] == [];
    assert CountStatus(demo[1..], "Pending") == 1;
    assert CountStatus(demo[1..], "Investigating") == 0;
  }

  // -------------------------------------------------------------------- view

  class DashboardView {
    var complaints: seq<Complaint>
    var authState: Option<AuthRecord>
    var isAdmin: bool
    var searchTerm: string

    constructor ()
      ensures complaints == [] && authState == None && !isAdmin && searchTerm == ""
    {
      complaints := [];
      authState := None;
      isAdmin := false;
      searchTerm := "";
    }

    /**
     * The effect run on mount. Without an auth record it redirects to the
     * sign-in page and loads nothing. Otherwise it records the identity, sets
     * `isAdmin` from the role, and loads the stored list; when no list was
     * ever stored it seeds the two demo complaints and writes them back.
     */
    method Load(store: BrowserStore, twoDaysAgo: string, fiveDaysAgo: string) returns (redirected: bool)
      modifies this, store`complaints
      ensures redirected <==> old(store.auth).None?
      ensures searchTerm == old(searchTerm)
      ensures redirected ==>
        complaints == old(complaints) && authState == old(authState) && isAdmin == old(isAdmin)
        && store.complaints == old(store.complaints)
      ensures !redirected ==> authState == old(store.auth) && isAdmin == (old(store.auth).value.role == "admin")
      ensures !redirected && old(store.complaints).Some? ==>
        complaints == old(store.complaints).value && store.complaints == old(store.complaints)
      ensures !redirected && old(store.complaints).None? ==>
        complaints == DemoComplaints(twoDaysAgo, fiveDaysAgo) && store.complaints == Some(complaints)
    {
      if store.auth.None? {
        return true;
      }
      redirected := false;
      var authData := store.auth.value;
      authState := Some(authData);
      isAdmin := authData.role == "admin";
      match store.complaints {
        case Some(stored) =>
          complaints := stored;
        case None =>
          var demo := DemoComplaints(twoDaysAgo, fiveDaysAgo);
          complaints := demo;
          store.complaints := Some(demo);
      }
    }

    /** The search box's change handler. */
    method SetSearchTerm(term: string)
      modifies this`searchTerm
      ensures searchTerm == term
    {
      searchTerm := term;
    }
  }
}
