/** compliance/compliance.util.ts, with all calendar dates in one timezone. */
module Compliance {
  import opened Dates
  import opened EntitiesValidator
  import opened Options

  datatype ComplianceStatus = NotApplicable | Tbd | GoodStanding | FilingDue | Overdue | Suspended

  datatype FilingForDueDate = FilingForDueDate(dueDate: Date, status: string)

  predicate IsTerminalStatus(status: string) {
    status in {"Revoked/Terminated", "Merged/Acquired", "Divested/Sold", "Dormant", "Dissolved"}
  }

  const INELIGIBLE_STATUSES := {"Filed", "Canceled"}

  predicate IsEligible(f: FilingForDueDate) {
    f.status !in INELIGIBLE_STATUSES
  }

  function Eligible(filings: seq<FilingForDueDate>): seq<FilingForDueDate> {
    if filings == [] then []
    else (if IsEligible(filings[0]) then [filings[0]] else []) + Eligible(filings[1..])
  }

  /** The fold of the earliest due date, started from `earliest`. */
  function Earliest(filings: seq<FilingForDueDate>, earliest: Date): Date {
    if filings == [] then earliest
    else Earliest(filings[1..], if filings[0].dueDate < earliest then filings[0].dueDate else earliest)
  }

  function ComputeNextDueDate(filings: seq<FilingForDueDate>): Option<Date> {
    var eligible := Eligible(filings);
    if eligible == [] then None else Some(Earliest(eligible, eligible[0].dueDate))
  }

  function DaysBetween(from: Date, to: Date): int {
    to - from
  }

  function ComputeComplianceStatus(entityStatus: string, nextDueDate: Option<Date>, today: Date): ComplianceStatus {
    if IsTerminalStatus(entityStatus) then NotApplicable
    else
      match nextDueDate
      case None => Tbd
      case Some(due) =>
        var d := DaysBetween(today, due);
        if d >= 90 then GoodStanding else if d >= 0 then FilingDue else if d >= -364 then Overdue else Suspended
  }

  // ----- The next due date is the earliest eligible one -----

  lemma {:induction false} EligibleMembers(filings: seq<FilingForDueDate>)
    ensures forall f :: f in Eligible(filings) <==> f in filings && IsEligible(f)
  {
    if filings != [] {
      EligibleMembers(filings[1..]);
      assert forall f :: f in filings <==> f == filings[0] || f in filings[1..];
    }
  }

  lemma {:induction false} EarliestIsLeast(filings: seq<FilingForDueDate>, start: Date)
    ensures var e := Earliest(filings, start);
      && e <= start && (forall f :: f in filings ==> e <= f.dueDate)
      && (e == start || exists f :: f in filings && f.dueDate == e)
  {
    if filings != [] {
      EarliestIsLeast(filings[1..], if filings[0].dueDate < start then filings[0].dueDate else start);
      assert forall f :: f in filings <==> f == filings[0] || f in filings[1..];
    }
  }

  /** Neither filed nor given up. */
  ghost predicate IsOpen(f: FilingForDueDate) {
    f.status != "Filed" && f.status != "Canceled"
  }

  ghost predicate IsNextDue(filings: seq<FilingForDueDate>, due: Date) {
    && (exists f :: f in filings && IsOpen(f) && f.dueDate == due)
    && forall f :: f in filings && IsOpen(f) ==> due <= f.dueDate
  }

  lemma NextDueDateExact(filings: seq<FilingForDueDate>, due: Date)
    ensures ComputeNextDueDate(filings) == Some(due) <==> IsNextDue(filings, due)
    ensures ComputeNextDueDate(filings) == None <==> forall f :: f in filings ==> !IsOpen(f)
  {
    var eligible := Eligible(filings);
    EligibleMembers(filings);
    if eligible != [] {
      EarliestIsLeast(eligible, eligible[0].dueDate);
      assert eligible[0] in eligible;
    }
  }

  /** The statuses without compliance are those for which an upload must give a status date. */
  lemma TerminalStatusesAgree(status: string)
    ensures IsTerminalStatus(status) <==> status in TERMINAL_STATUSES
  {
  }

  // ----- Severity -----

  function Severity(s: ComplianceStatus): int {
    match s
    case NotApplicable => -1
    case Tbd => -1
    case GoodStanding => 0
    case FilingDue => 1
    case Overdue => 2
    case Suspended => 3
  }

  /** The days on which the status turns: 89 days before the due date, the day after it, and 365
      days after it. */
  ghost function TurningDays(due: Date): set<Date> {
    {due - 89, due + 1, due + 365}
  }

  /** The severity of an entity that has one is the number of turning days that have come. */
  lemma SeverityCountsTurns(entityStatus: string, nextDueDate: Option<Date>, today: Date)
    ensures var status := ComputeComplianceStatus(entityStatus, nextDueDate, today);
      && (IsTerminalStatus(entityStatus) <==> status == NotApplicable)
      && (!IsTerminalStatus(entityStatus) && nextDueDate.None? <==> status == Tbd)
      && (!IsTerminalStatus(entityStatus) && nextDueDate.Some? ==>
            Severity(status) == |set d | d in TurningDays(nextDueDate.value) && d <= today|)
  {
    if nextDueDate.Some? {
      var due := nextDueDate.value;
      var reached := set d | d in TurningDays(due) && d <= today;
      if today < due - 89 {
        assert reached == {};
      } else if today < due + 1 {
        assert reached == {due - 89};
      } else if today < due + 365 {
        assert reached == {due - 89, due + 1};
      } else {
        assert reached == {due - 89, due + 1, due + 365};
      }
    }
  }

  lemma MoreFilingsNoLater(filings: seq<FilingForDueDate>, more: seq<FilingForDueDate>, due: Date)
    requires ComputeNextDueDate(filings) == Some(due) && forall f :: f in filings ==> f in more
    ensures ComputeNextDueDate(more).Some? && ComputeNextDueDate(more).value <= due
  {
    NextDueDateExact(filings, due);
    var f :| f in filings && IsOpen(f) && f.dueDate == due;
    NextDueDateExact(more, 0);
    assert f in more && ComputeNextDueDate(more).Some?;
    NextDueDateExact(more, ComputeNextDueDate(more).value);
  }

  /** For an entity that is not terminal and has a due date, letting time pass or adding filings
      anywhere in the list never lowers the severity. */
  lemma SeverityNeverDrops(entityStatus: string, filings: seq<FilingForDueDate>, more: seq<FilingForDueDate>,
                           today: Date, later: Date)
    requires !IsTerminalStatus(entityStatus) && ComputeNextDueDate(filings).Some?
    requires today <= later && forall f :: f in filings ==> f in more
    ensures Severity(ComputeComplianceStatus(entityStatus, ComputeNextDueDate(filings), today))
         <= Severity(ComputeComplianceStatus(entityStatus, ComputeNextDueDate(more), later))
  {
    MoreFilingsNoLater(filings, more, ComputeNextDueDate(filings).value);
  }
}
