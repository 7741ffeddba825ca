/** The team screen: creating a moderator account from the form, whether a
    moderator counts as online, and each moderator's call statistics. */
module ModeratorManager {
  import opened Types
  import opened Lists
  import opened Text
  import Numeric

  /** The moderator record the form submits, with `id` the generated id, or
      `None` when a field is empty. The emptiness check looks at the raw
      input, before trimming. */
  function NewModerator(name: string, email: string, password: string, id: string): (r: Option<User>)
    ensures r.None? <==> name == [] || email == [] || password == []
    ensures r.Some? ==> r.value.id == id && r.value.role == Moderator
    ensures r.Some? ==> r.value.name == Trim(name) && r.value.email == Trim(Lower(email))
    ensures r.Some? ==> r.value.password == Some(Trim(password))
    ensures r.Some? ==> r.value.lastSeen.None? && r.value.isActive.None?
  {
    if name == [] || email == [] || password == [] then None
    else Some(User(id, Trim(name), Trim(Lower(email)), Moderator, None, None, Some(Trim(password))))
  }

  /** Any non-empty name passes the check, and the stored name is empty
      exactly when the typed one is made only of blanks. */
  lemma BlankNameAccepted(name: string, email: string, password: string, id: string)
    requires name != [] && email != [] && password != []
    ensures NewModerator(name, email, password, id).Some?
    ensures NewModerator(name, email, password, id).value.name == [] <==> forall k :: 0 <= k < |name| ==> IsSpace(name[k])
  {
    TrimBlank(name);
  }

  /** The submitted email is in lower case and carries no surrounding blanks,
      whatever the letter case typed. */
  lemma EmailNormalised(name: string, email: string, password: string, id: string)
    requires NewModerator(name, email, password, id).Some?
    ensures var e := NewModerator(name, email, password, id).value.email;
      Trim(e) == e && Lower(e) == e && e == Trim(Lower(Upper(email)))
  {
    TrimIdempotent(Lower(email));
    LowerTrimCommute(Lower(email));
    LowerIdempotent(email);
    LowerUpper(email);
  }

  /** Presence: a moderator seen less than 90 seconds before `now` (in
      milliseconds) is online; one never seen is not. */
  const OnlineWindowMs := 90000

  function IsOnline(lastSeen: Option<int>, now: int): (r: bool)
    ensures lastSeen.None? ==> !r
    ensures lastSeen.Some? ==> (r <==> now - lastSeen.value < OnlineWindowMs)
  {
    match lastSeen
    case None => false
    case Some(t) => now - t < OnlineWindowMs
  }

  /** Once offline, a moderator who is not seen again stays offline; and
      online at some time means online at every earlier time. */
  lemma OnlineMonotone(lastSeen: Option<int>, earlier: int, later: int)
    requires earlier <= later
    ensures IsOnline(lastSeen, later) ==> IsOnline(lastSeen, earlier)
    ensures lastSeen.Some? && later >= lastSeen.value + OnlineWindowMs ==> !IsOnline(lastSeen, later)
  {
  }

  /** A moderator's call statistics: the leads assigned to them, how many of
      those were called, and that share as a rounded percentage. */
  datatype CallStats = CallStats(total: nat, completed: nat, percentage: int)

  function AssignedTest(modId: string): Lead -> bool {
    (l: Lead) => l.moderatorId == modId
  }

  function CalledTest(): Lead -> bool {
    (l: Lead) => l.status == Called
  }

  function ModCallStats(leads: seq<Lead>, modId: string): (r: CallStats)
    ensures r.total == Count(leads, AssignedTest(modId))
    ensures r.completed <= r.total
    ensures 0 <= r.percentage <= 100
    ensures r.total == 0 ==> r.percentage == 0
    ensures r.total > 0 ==> 2 * r.percentage * r.total <= 200 * r.completed + r.total < 2 * (r.percentage + 1) * r.total
  {
    var mine := Filter(leads, AssignedTest(modId));
    var completed := Count(mine, CalledTest());
    CallStats(|mine|, completed, Numeric.RoundedPercent(completed, |mine|))
  }

  /** The completed figure counts exactly the called leads of the moderator. */
  lemma CompletedAreCalledAndAssigned(leads: seq<Lead>, modId: string)
    ensures ModCallStats(leads, modId).completed == Count(leads, (l: Lead) => l.moderatorId == modId && l.status == Called)
  {
    FilterFilter(leads, AssignedTest(modId), CalledTest(), (l: Lead) => l.moderatorId == modId && l.status == Called);
  }

  /** A moderator with every lead called is at 100 %, one with none called at 0 %. */
  lemma CallStatsEnds(leads: seq<Lead>, modId: string)
    ensures var s := ModCallStats(leads, modId); s.total > 0 && s.completed == s.total ==> s.percentage == 100
    ensures var s := ModCallStats(leads, modId); s.completed == 0 ==> s.percentage == 0
  {
    var s := ModCallStats(leads, modId);
    if s.total > 0 {
      Numeric.RoundedPercentEnds(s.total);
    }
  }
}
