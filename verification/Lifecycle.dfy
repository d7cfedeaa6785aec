/** The status of a finding and its append-only history. */
module Lifecycle {
  import opened Options

  datatype Status = New | Confirmed | InReview | AcceptedRisk | FalsePositive | Remediated | Reopened

  datatype Trigger = Manual | Automatic

  datatype Entry = Entry(from: Status, to: Status, trigger: Trigger)

  /** `VALID_TRANSITIONS`. */
  function NextStatuses(s: Status): set<Status> {
    match s
    case New => {Confirmed}
    case Confirmed => {InReview}
    case InReview => {AcceptedRisk, FalsePositive, Remediated}
    case AcceptedRisk => {Reopened}
    case FalsePositive => {Reopened}
    case Remediated => {Reopened}
    case Reopened => {Confirmed, InReview}
  }

  const AUTO_REOPEN_FROM: set<Status> := {Remediated, FalsePositive}

  datatype Record = Record(status: Status, history: seq<Entry>)

  /** `transition_status`: None stands for InvalidTransitionError, with nothing changed. */
  function Transition(r: Record, to: Status, trigger: Trigger): Option<Record> {
    if to in NextStatuses(r.status) then Some(Record(to, r.history + [Entry(r.status, to, trigger)])) else None
  }

  /** `maybe_auto_reopen`, called on every re-observation. */
  function AutoReopen(r: Record): Record {
    if r.status !in AUTO_REOPEN_FROM then r
    else
      match Transition(r, Reopened, Automatic)
      case Some(r') => r'
      case None => r
  }

  class FindingStatus {
    var status: Status
    var history: seq<Entry>

    function State(): Record
      reads this
    {
      Record(status, history)
    }

    constructor ()
      ensures State() == Record(New, [])
    {
      status, history := New, [];
    }

    constructor Load(r: Record)
      ensures State() == r
    {
      status, history := r.status, r.history;
    }

    method TransitionStatus(to: Status, trigger: Trigger) returns (ok: bool)
      modifies this
      ensures ok <==> Transition(old(State()), to, trigger).Some?
      ensures State() == if ok then Transition(old(State()), to, trigger).value else old(State())
    {
      var from := status;
      if to !in NextStatuses(from) {
        return false;
      }
      status := to;
      history := history + [Entry(from, to, trigger)];
      ok := true;
    }

    method MaybeAutoReopen() returns (reopened: bool)
      modifies this
      ensures reopened <==> old(status) in AUTO_REOPEN_FROM
      ensures State() == AutoReopen(old(State()))
    {
      if status !in AUTO_REOPEN_FROM {
        return false;
      }
      var ok := TransitionStatus(Reopened, Automatic);
      reopened := true;
    }
  }

  // ---- Any mix of re-observations and manual changes ----

  datatype Event = Reobserved | Requested(to: Status)

  function Apply(r: Record, ev: Event): Record {
    match ev
    case Reobserved => AutoReopen(r)
    case Requested(to) =>
      match Transition(r, to, Manual)
      case Some(r') => r'
      case None => r
  }

  function After(events: seq<Event>): Record {
    if events == [] then Record(New, []) else Apply(After(events[..|events| - 1]), events[|events| - 1])
  }

  /** The history is a walk through the valid transitions that starts at `s`. */
  ghost predicate WalkFrom(s: Status, history: seq<Entry>)
    decreases |history|
  {
    history == [] || (history[0].from == s && history[0].to in NextStatuses(s) && WalkFrom(history[0].to, history[1..]))
  }

  function Replay(s: Status, history: seq<Entry>): Status
    decreases |history|
  {
    if history == [] then s else Replay(history[0].to, history[1..])
  }

  /** The transitions, one by one. */
  lemma TransitionTable(r: Record, to: Status, trigger: Trigger)
    ensures Transition(r, to, trigger).Some? <==>
      || (r.status == New && to == Confirmed) || (r.status == Confirmed && to == InReview)
      || (r.status == InReview && to == AcceptedRisk) || (r.status == InReview && to == FalsePositive)
      || (r.status == InReview && to == Remediated) || (r.status == AcceptedRisk && to == Reopened)
      || (r.status == FalsePositive && to == Reopened) || (r.status == Remediated && to == Reopened)
      || (r.status == Reopened && to == Confirmed) || (r.status == Reopened && to == InReview)
    ensures Transition(r, to, trigger).Some? ==>
      Transition(r, to, trigger).value == Record(to, r.history + [Entry(r.status, to, trigger)])
  {
  }

  /** A re-observation reopens what was remediated or set aside as false, with one automatic entry, and nothing
      else. */
  lemma ReopeningTable(r: Record)
    ensures AutoReopen(r) ==
      if r.status == Remediated || r.status == FalsePositive
      then Record(Reopened, r.history + [Entry(r.status, Reopened, Automatic)])
      else r
  {
  }

  lemma {:induction false} WalkExtends(s: Status, history: seq<Entry>, e: Entry)
    requires WalkFrom(s, history) && e.from == Replay(s, history) && e.to in NextStatuses(e.from)
    ensures WalkFrom(s, history + [e]) && Replay(s, history + [e]) == e.to
    decreases |history|
  {
    if history != [] {
      assert (history + [e])[1..] == history[1..] + [e];
      WalkExtends(history[0].to, history[1..], e);
    }
  }

  /** Replaying the history from NEW gives the current status, every entry is a valid transition, and
      an automatic entry leaves only REMEDIATED or FALSE_POSITIVE, so a human decision to accept a risk
      is only ever undone by a human. */
  lemma {:induction false} HistoryExplainsStatus(events: seq<Event>)
    ensures WalkFrom(New, After(events).history)
    ensures Replay(New, After(events).history) == After(events).status
    ensures forall e | e in After(events).history && e.trigger == Automatic ::
      e.from in {Remediated, FalsePositive} && e.to == Reopened
    ensures forall e | e in After(events).history && e.from == AcceptedRisk :: e.trigger == Manual
    decreases |events|
  {
    if events != [] {
      var before := After(events[..|events| - 1]);
      HistoryExplainsStatus(events[..|events| - 1]);
      var after := After(events);
      if after.history != before.history {
        WalkExtends(New, before.history, after.history[|before.history|]);
      }
    }
  }
}
