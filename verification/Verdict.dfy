/** The categorical label of one token. */
module Verdict {

  datatype Verdict =
    | Both
    | Thin
    | Concentrated
    | Distributing
    | Confirmed
    | Weak
    | Unverified
    | ExitOnly
    | Independent

  predicate ExitSignal(smartTraderNetFlowUSD: real, exchangeNetFlowUSD: real, hasFlow: bool)
  {
    hasFlow && smartTraderNetFlowUSD > 0.0 && exchangeNetFlowUSD > 0.0
  }

  function DecideVerdict(n: nat, m: nat, covered: nat, smartTraderNetFlowUSD: real, exchangeNetFlowUSD: real, hasFlow: bool): Verdict
  {
    var dist := ExitSignal(smartTraderNetFlowUSD, exchangeNetFlowUSD, hasFlow);
    if n < 3 then
      if dist then ExitOnly else Weak
    else if m == 1 then
      if dist then Both else Thin
    else if m < n then
      if dist then Both else Concentrated
    else if covered < n then
      Unverified
    else if dist then
      Distributing
    else if !hasFlow then
      Independent
    else
      Confirmed
  }

  /** The signal floor withholds the claims that rest on finding no shared funder. */
  function DecideWithFloor(
    n: nat, m: nat, covered: nat, smartFlow: real, exchFlow: real, exitCheckable: bool, boughtUSD: real, minSignalUSD: real): Verdict
  {
    var v := DecideVerdict(n, m, covered, smartFlow, exchFlow, exitCheckable);
    if boughtUSD >= minSignalUSD then v
    else if v == Thin || v == Concentrated || v == Both then v
    else DecideVerdict(0, m, covered, smartFlow, exchFlow, exitCheckable)
  }

  /** How much a row says, most first; the report is sorted by it. */
  function Severity(v: Verdict): nat
  {
    match v
    case Both => 0
    case Thin => 1
    case Concentrated => 2
    case Distributing => 3
    case ExitOnly => 3
    case Confirmed => 4
    case Independent => 5
    case Unverified => 6
    case Weak => 7
  }
}
