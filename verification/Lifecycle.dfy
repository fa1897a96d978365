/** The order lifecycle: services/tracking-service/internal/service/state_machine.go. */
module Lifecycle {
  import opened Outcomes
  import opened Text

  datatype Status = Created | Assigned | InTransit | Delivered | Cancelled

  datatype Source = System | Courier | Manager | CarrierSync

  datatype StatusError = InvalidStatus | InvalidStatusSource | TransitionNotAllowed

  /** The transition table. */
  function AllowedTransitions(from: Status): set<Status> {
    match from
    case Created => {Assigned, Cancelled}
    case Assigned => {InTransit, Cancelled}
    case InTransit => {Delivered}
    case Delivered => {}
    case Cancelled => {}
  }

  function StatusName(s: Status): string {
    match s
    case Created => "created"
    case Assigned => "assigned"
    case InTransit => "in_transit"
    case Delivered => "delivered"
    case Cancelled => "cancelled"
  }

  function ParseStatus(name: string): Option<Status> {
    if name == "created" then Some(Created)
    else if name == "assigned" then Some(Assigned)
    else if name == "in_transit" then Some(InTransit)
    else if name == "delivered" then Some(Delivered)
    else if name == "cancelled" then Some(Cancelled)
    else None
  }

  function NormalizeStatus(raw: string): Result<Status, StatusError> {
    match ParseStatus(Lower(TrimSpace(raw)))
    case Some(s) => Success(s)
    case None => Failure(InvalidStatus)
  }

  function ValidateStatusTransition(current: string, next: string): Result<(), StatusError> {
    match NormalizeStatus(current)
    case Failure(e) => Failure(e)
    case Success(from) =>
      match NormalizeStatus(next)
      case Failure(e) => Failure(e)
      case Success(to) =>
        if to in AllowedTransitions(from) then Success(()) else Failure(TransitionNotAllowed)
  }

  function NormalizeStatusSource(raw: string): Result<Source, StatusError> {
    var name := Lower(TrimSpace(raw));
    if name == "system" then Success(System)
    else if name == "courier" then Success(Courier)
    else if name == "manager" then Success(Manager)
    else if name == "carrier_sync" then Success(CarrierSync)
    else Failure(InvalidStatusSource)
  }

  predicate CanMove(from: Status, to: Status) {
    to in AllowedTransitions(from)
  }

  predicate Terminal(s: Status) {
    AllowedTransitions(s) == {}
  }

  lemma ParseName(s: Status)
    ensures ParseStatus(StatusName(s)) == Some(s)
  {
    if s == Cancelled {
      assert "cancelled"[0] != "delivered"[0];
    }
  }

  /** Every spelling of a status that differs in case or outer whitespace is accepted, and nothing else. */
  lemma NormalizeStatusAccepts(raw: string, s: Status)
    ensures NormalizeStatus(raw) == Success(s) <==> Lower(TrimSpace(raw)) == StatusName(s)
  {
    ParseName(s);
  }

  lemma NormalizeName(s: Status)
    ensures NormalizeStatus(StatusName(s)) == Success(s)
  {
    var name := StatusName(s);
    TrimBare(name, IsSpace);
    assert Lower(name) == name;
    ParseName(s);
  }

  /** On database spellings the check decides membership in the transition table. */
  lemma ValidateDecidesTable(from: Status, to: Status)
    ensures ValidateStatusTransition(StatusName(from), StatusName(to)) ==
            if CanMove(from, to) then Success(()) else Failure(TransitionNotAllowed)
  {
    NormalizeName(from);
    NormalizeName(to);
  }

  /** Position on the way from creation to an end state. */
  function Rank(s: Status): nat {
    match s
    case Created => 0
    case Assigned => 1
    case InTransit => 2
    case Delivered => 3
    case Cancelled => 3
  }

  predicate IsPath(path: seq<Status>) {
    forall i :: 0 <= i < |path| - 1 ==> CanMove(path[i], path[i + 1])
  }

  lemma {:induction false} RankAlongPath(path: seq<Status>, i: nat, j: nat)
    requires IsPath(path) && i <= j < |path|
    ensures Rank(path[i]) + (j - i) <= Rank(path[j])
    decreases j
  {
    if i < j {
      RankAlongPath(path, i, j - 1);
      assert CanMove(path[j - 1], path[j - 1 + 1]);
    }
  }

  /** A lifecycle visits no status twice and has at most four entries. */
  lemma PathIsShortAndSimple(path: seq<Status>)
    requires IsPath(path)
    ensures |path| <= 4
    ensures forall i, j :: 0 <= i < j < |path| ==> path[i] != path[j]
  {
    forall i, j | 0 <= i < j < |path| ensures path[i] != path[j] {
      RankAlongPath(path, i, j);
    }
    if |path| > 0 {
      RankAlongPath(path, 0, |path| - 1);
    }
  }

  // The table and the names, in other words.

  /** An order can be cancelled until it is on the road; otherwise it goes forward one step at a time. */
  lemma CanMoveIff(from: Status, to: Status)
    ensures CanMove(from, to) <==>
      if to == Cancelled then from == Created || from == Assigned
      else from != Cancelled && Rank(to) == Rank(from) + 1
    ensures CanMove(from, to) <==>
      (from, to) in {(Created, Assigned), (Assigned, InTransit), (InTransit, Delivered),
                     (Created, Cancelled), (Assigned, Cancelled)}
  {
  }

  lemma TerminalIff(s: Status)
    ensures Terminal(s) <==> s == Delivered || s == Cancelled
  {
  }

  /** The status names that are accepted. */
  lemma NormalizeStatusNames(raw: string)
    ensures
      var name := Lower(TrimSpace(raw));
      && (NormalizeStatus(raw) == Success(Created) <==> name == "created")
      && (NormalizeStatus(raw) == Success(Assigned) <==> name == "assigned")
      && (NormalizeStatus(raw) == Success(InTransit) <==> name == "in_transit")
      && (NormalizeStatus(raw) == Success(Delivered) <==> name == "delivered")
      && (NormalizeStatus(raw) == Success(Cancelled) <==> name == "cancelled")
      && (NormalizeStatus(raw) == Failure(InvalidStatus) <==>
            name !in {"created", "assigned", "in_transit", "delivered", "cancelled"})
  {
    NormalizeStatusAccepts(raw, Created);
    NormalizeStatusAccepts(raw, Assigned);
    NormalizeStatusAccepts(raw, InTransit);
    NormalizeStatusAccepts(raw, Delivered);
    NormalizeStatusAccepts(raw, Cancelled);
  }

  /** The status sources that are accepted. */
  lemma NormalizeStatusSourceNames(raw: string)
    ensures
      var name := Lower(TrimSpace(raw));
      && (NormalizeStatusSource(raw) == Success(System) <==> name == "system")
      && (NormalizeStatusSource(raw) == Success(Courier) <==> name == "courier")
      && (NormalizeStatusSource(raw) == Success(Source.Manager) <==> name == "manager")
      && (NormalizeStatusSource(raw) == Success(CarrierSync) <==> name == "carrier_sync")
      && (NormalizeStatusSource(raw) == Failure(InvalidStatusSource) <==>
            name !in {"system", "courier", "manager", "carrier_sync"})
  {
    assert "system"[0] == 's' && "courier"[0] == 'c' && "manager"[0] == 'm' && "carrier_sync"[1] == 'a';
    assert "courier"[1] == 'o';
  }

  /** The check on texts as they come: unknown names first, then the table. */
  lemma ValidateOutcome(current: string, next: string)
    ensures
      var from, to := NormalizeStatus(current), NormalizeStatus(next);
      ValidateStatusTransition(current, next) ==
        if from.Failure? || to.Failure? then Failure(InvalidStatus)
        else if CanMove(from.value, to.value) then Success(())
        else Failure(TransitionNotAllowed)
  {
  }
}
