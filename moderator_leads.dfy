/** A moderator's own leads: the day filter, the counters above it, the
    call / re-open button and the order of the cards. `today` and `tomorrow`
    are the `YYYY-MM-DD` strings of the two days. */
module ModeratorLeads {
  import opened Types
  import opened Lists
  import opened Sorting
  import Store

  /** The three tabs above the cards. */
  datatype DateFilter = Today | Tomorrow | AllDates

  /** The leads a tab shows: those assigned to today or to tomorrow, or all
      of them, in list order. */
  function FilterLeads(leads: seq<Lead>, filter: DateFilter, today: string, tomorrow: string): (r: seq<Lead>)
    ensures filter == AllDates ==> r == leads
    ensures filter == Today ==> forall i :: 0 <= i < |r| ==> r[i].assignedDate == today
    ensures filter == Tomorrow ==> forall i :: 0 <= i < |r| ==> r[i].assignedDate == tomorrow
    ensures filter == Today ==> forall i :: 0 <= i < |leads| && leads[i].assignedDate == today ==> leads[i] in r
    ensures filter == Tomorrow ==> forall i :: 0 <= i < |leads| && leads[i].assignedDate == tomorrow ==> leads[i] in r
    ensures multiset(r) <= multiset(leads)
  {
    match filter
    case Today => Filter(leads, DatedTest(today))
    case Tomorrow => Filter(leads, DatedTest(tomorrow))
    case AllDates => leads
  }

  function DatedTest(day: string): Lead -> bool {
    (l: Lead) => l.assignedDate == day
  }

  function OpenOnTest(day: string): Lead -> bool {
    (l: Lead) => l.assignedDate == day && l.status == New
  }

  /** The counters: today's leads still to call, all of tomorrow's leads,
      and every lead. */
  datatype LeadStats = LeadStats(today: nat, tomorrow: nat, total: nat)

  function Stats(leads: seq<Lead>, today: string, tomorrow: string): (r: LeadStats)
    ensures r.total == |leads|
    ensures r.today <= r.total && r.tomorrow <= r.total
  {
    LeadStats(Count(leads, OpenOnTest(today)), Count(leads, DatedTest(tomorrow)), |leads|)
  }

  function IsNewTest(): Lead -> bool {
    (l: Lead) => l.status == New
  }

  /** The today counter is the number of cards on the today tab still to be
      called, so it never exceeds that tab; the tomorrow counter is exactly
      the cards on the tomorrow tab; the total is the cards on the all tab. */
  lemma StatsMatchTabs(leads: seq<Lead>, today: string, tomorrow: string)
    ensures Stats(leads, today, tomorrow).today == Count(FilterLeads(leads, Today, today, tomorrow), IsNewTest())
    ensures Stats(leads, today, tomorrow).today <= |FilterLeads(leads, Today, today, tomorrow)|
    ensures Stats(leads, today, tomorrow).tomorrow == |FilterLeads(leads, Tomorrow, today, tomorrow)|
    ensures Stats(leads, today, tomorrow).total == |FilterLeads(leads, AllDates, today, tomorrow)|
  {
    FilterFilter(leads, DatedTest(today), IsNewTest(), OpenOnTest(today));
  }

  /** The status the card's button asks for: the other one. */
  function Toggled(s: LeadStatus): (r: LeadStatus)
    ensures r != s
  {
    if s == New then Called else New
  }

  /** Asking twice gives back the status asked about first. */
  lemma ToggleInvolution(s: LeadStatus)
    ensures Toggled(Toggled(s)) == s
  {
  }

  /** The update the card's button sends: the lead's id and the other status. */
  function ToggleRequest(lead: Lead): (r: (string, LeadStatus))
    ensures r.0 == lead.id && r.1 != lead.status
  {
    (lead.id, Toggled(lead.status))
  }

  /** Pressing the button of a card, then the button of the same card again,
      leaves the list as it was, when the leads sharing the card's id share
      its status. */
  lemma ToggleTwiceRestores(leads: seq<Lead>, k: nat)
    requires k < |leads|
    requires forall i :: 0 <= i < |leads| && leads[i].id == leads[k].id ==> leads[i].status == leads[k].status
    ensures var first := ToggleRequest(leads[k]);
      var once := Store.SetLeadStatus(leads, first.0, first.1);
      var second := ToggleRequest(once[k]);
      Store.SetLeadStatus(once, second.0, second.1) == leads
  {
    var first := ToggleRequest(leads[k]);
    var once := Store.SetLeadStatus(leads, first.0, first.1);
    var second := ToggleRequest(once[k]);
    var twice := Store.SetLeadStatus(once, second.0, second.1);
    assert second == (leads[k].id, leads[k].status);
    forall i | 0 <= i < |leads| ensures twice[i] == leads[i] {
      if leads[i].id == leads[k].id {
        assert once[i].id == leads[i].id;
      }
    }
  }

  /** Code-point order on strings, a proper prefix first. On the
      `YYYY-MM-DD` dates of the leads it is the calendar order. */
  function LexLess(a: string, b: string): (r: bool)
    ensures r ==> a != b
    ensures |a| < |b| && b[..|a|] == a ==> r
    ensures a != [] && b != [] && a[0] < b[0] ==> r
  {
    if a == [] then b != []
    else if b == [] then false
    else if a[0] != b[0] then a[0] < b[0]
    else LexLess(a[1..], b[1..])
  }

  lemma {:induction false} LexLessIrreflexive(a: string)
    ensures !LexLess(a, a)
  {
    if a != [] {
      LexLessIrreflexive(a[1..]);
    }
  }

  lemma {:induction false} LexLessAsymmetric(a: string, b: string)
    ensures !(LexLess(a, b) && LexLess(b, a))
  {
    if a != [] && b != [] && a[0] == b[0] {
      LexLessAsymmetric(a[1..], b[1..]);
    }
  }

  lemma {:induction false} LexLessTransitive(a: string, b: string, c: string)
    requires LexLess(a, b) && LexLess(b, c)
    ensures LexLess(a, c)
  {
    if a != [] && b != [] && c != [] && a[0] == b[0] && b[0] == c[0] {
      LexLessTransitive(a[1..], b[1..], c[1..]);
    }
  }

  lemma {:induction false} LexLessTotal(a: string, b: string)
    requires a != b
    ensures LexLess(a, b) || LexLess(b, a)
  {
    if a != [] && b != [] && a[0] == b[0] {
      assert a == [a[0]] + a[1..] && b == [b[0]] + b[1..];
      LexLessTotal(a[1..], b[1..]);
    }
  }

  /** `a` may stand before `b` on the cards: it is assigned to a day no
      earlier than `b`'s. */
  predicate LaterOrSameDate(a: Lead, b: Lead) {
    !LexLess(a.assignedDate, b.assignedDate)
  }

  lemma LaterOrSameDateIsPreorder()
    ensures TotalPreorder(LaterOrSameDate)
  {
    forall a: Lead, b: Lead ensures LaterOrSameDate(a, b) || LaterOrSameDate(b, a) {
      LexLessAsymmetric(a.assignedDate, b.assignedDate);
    }
    forall a: Lead, b: Lead, c: Lead | LaterOrSameDate(a, b) && LaterOrSameDate(b, c) ensures LaterOrSameDate(a, c) {
      var x, y, z := a.assignedDate, b.assignedDate, c.assignedDate;
      if x != y && y != z {
        LexLessTotal(x, y);
        LexLessTotal(y, z);
        LexLessTransitive(z, y, x);
        LexLessAsymmetric(x, z);
      }
    }
  }

  /** The cards of a tab: a sorted copy of the tab's leads, latest day first,
      leads of the same day in list order. */
  function Cards(leads: seq<Lead>, filter: DateFilter, today: string, tomorrow: string): (r: seq<Lead>)
    ensures |r| == |FilterLeads(leads, filter, today, tomorrow)|
  {
    Sort(FilterLeads(leads, filter, today, tomorrow), LaterOrSameDate)
  }

  /** The cards are exactly the tab's leads, latest day first. */
  lemma CardsSpec(leads: seq<Lead>, filter: DateFilter, today: string, tomorrow: string)
    ensures SortedBy(Cards(leads, filter, today, tomorrow), LaterOrSameDate)
    ensures multiset(Cards(leads, filter, today, tomorrow)) == multiset(FilterLeads(leads, filter, today, tomorrow))
  {
    LaterOrSameDateIsPreorder();
    SortSorted(FilterLeads(leads, filter, today, tomorrow), LaterOrSameDate);
  }

  /** Leads of the same day keep their list order on the cards. */
  lemma CardsStable(leads: seq<Lead>, filter: DateFilter, today: string, tomorrow: string, x: Lead)
    ensures Filter(Cards(leads, filter, today, tomorrow), TiedWith(LaterOrSameDate, x))
      == Filter(FilterLeads(leads, filter, today, tomorrow), TiedWith(LaterOrSameDate, x))
  {
    LaterOrSameDateIsPreorder();
    SortStable(FilterLeads(leads, filter, today, tomorrow), LaterOrSameDate, x);
  }
}
