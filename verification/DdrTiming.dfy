// DRAM timing: what issuing a request and refreshing do to bank and bus state, and the constraints
// that every sequence of them satisfies.
module DdrTiming {
  import opened DdrQueue

  datatype Timing = Timing(tBL: nat, tCL: nat, tRCD: nat, tRTP: nat, tRP: nat, tRRD: nat, tRAS: nat,
                           tFAW: nat, tWTR: nat, tWR: nat, tRFC: nat)
  {
    // What initTech and refresh assert of the technology parameters.
    predicate Ok() {
      && tBL > 0 && tCL > 0 && tRCD > 0 && tRTP > 0 && tRP > 0 && tRRD > 0 && tRAS > 0 && tFAW > 0
      && tWTR > 0 && tWR > 0 && tRFC >= tRP
    }
  }

  datatype BankState = BankState(open: bool, openRow: nat, minPre: nat, lastAct: nat, lastCmd: nat, curRowHits: nat)

  // The data bus: the first cycle it is free, and whether it last carried a write.
  datatype Bus = Bus(minResp: nat, lastWasWrite: bool)

  function Max(a: nat, b: nat): nat {
    if a >= b then a else b
  }

  predicate RowHit(b: BankState, r: Request) {
    r.row == b.openRow && b.open
  }

  // The activation a row miss needs; windowMin is the oldest activation in the rank's window.
  function PreCycle(b: BankState, r: Request): nat {
    if !b.open then b.minPre else Max(r.arrival, b.minPre)
  }

  function ActCycle(t: Timing, b: BankState, r: Request, windowMin: nat): nat {
    Max(Max(r.arrival, Max(PreCycle(b, r) + t.tRP, b.lastAct + t.tRRD)), windowMin + t.tFAW)
  }

  function FindMinCmdCycle(t: Timing, b: BankState, r: Request, windowMin: nat): nat {
    if RowHit(b, r) then Max(r.arrival, b.lastCmd + 1)
    else ActCycle(t, b, r, windowMin) + t.tRCD
  }

  // The cycle of the column command for a request issued at memory cycle cur.
  function CmdCycle(t: Timing, b: BankState, bus: Bus, r: Request, windowMin: nat, cur: nat): nat
    requires bus.minResp >= t.tCL
  {
    var c0 := Max(cur, bus.minResp - t.tCL);
    var c1 := if bus.lastWasWrite && !r.write then Max(c0, bus.minResp + t.tWTR) else c0;
    var c2 := if RowHit(b, r) then c1 else Max(c1, ActCycle(t, b, r, windowMin) + t.tRCD);
    Max(c2, bus.minResp - t.tCL)
  }

  // `keepOpen`: the next request in the bank list will hit the same row.
  function IssuedBank(t: Timing, b: BankState, bus: Bus, r: Request, windowMin: nat, cur: nat,
                      closedPage: bool, keepOpen: bool): BankState
    requires bus.minResp >= t.tCL
  {
    var hit := RowHit(b, r);
    var act := if hit then b.lastAct else ActCycle(t, b, r, windowMin);
    var pre := if !hit && b.open then PreCycle(b, r) + t.tRAS else b.minPre;
    var cmd := CmdCycle(t, b, bus, r, windowMin, cur);
    var recovery := if r.write then cmd + t.tCL + t.tBL + t.tWR else cmd + t.tRTP;
    BankState(!(closedPage && !keepOpen), r.row, Max(pre, Max(act + t.tRAS, recovery)), act, cmd, r.rowHitSeq)
  }

  function IssuedBus(t: Timing, b: BankState, bus: Bus, r: Request, windowMin: nat, cur: nat): Bus
    requires bus.minResp >= t.tCL
  {
    Bus(CmdCycle(t, b, bus, r, windowMin, cur) + t.tCL + t.tBL, r.write)
  }

  function MaxPre(banks: seq<BankState>, m: nat): nat {
    if banks == [] then m
    else Max(MaxPre(banks[..|banks| - 1], m), Max(banks[|banks| - 1].minPre, banks[|banks| - 1].lastCmd))
  }

  function RefreshDone(t: Timing, banks: seq<BankState>, memCycle: nat): nat {
    MaxPre(banks, memCycle) + t.tRFC
  }

  function Refreshed(t: Timing, banks: seq<BankState>, done: nat): (r: seq<BankState>)
    requires done >= t.tRP
    ensures |r| == |banks|
  {
    seq(|banks|, i requires 0 <= i < |banks| => banks[i].(minPre := done - t.tRP, open := false))
  }

  // ----- The commands that have been issued -----

  // `close`: the column command precharges its bank behind it.
  datatype Command = Act(bank: nat, at: nat, row: nat) | Col(bank: nat, at: nat, write: bool, row: nat, close: bool)
                   | Ref(done: nat)

  // From the column command to the earliest precharge.
  function ToPre(t: Timing, write: bool): nat {
    if write then t.tCL + t.tBL + t.tWR else t.tRTP
  }

  // Commands x and y, x issued before y, keep their distance.
  predicate Apart(t: Timing, x: Command, y: Command) {
    match (x, y)
    case (Col(_, i, w, _, _), Col(_, j, v, _, _)) =>
      // data bursts do not overlap, and a read waits for a preceding write burst
      i + t.tBL <= j && (w && !v ==> i + t.tCL + t.tBL + t.tWTR <= j)
    case (Act(b, i, _), Col(c, j, _, _, _)) => b == c ==> i + t.tRCD <= j
    case (Act(b, i, _), Act(c, j, _)) => b == c ==> i + t.tRAS + t.tRP <= j && i + t.tRRD <= j
    case (Col(b, i, w, _, _), Act(c, j, _)) => b == c ==> i + ToPre(t, w) + t.tRP <= j
    case (Ref(d), Act(_, j, _)) => d <= j
    case (Act(_, i, _), Ref(d)) => i + t.tRAS + t.tRFC <= d
    case (Col(_, i, w, _, _), Ref(d)) => i + ToPre(t, w) + t.tRFC <= d
    case (Ref(d), Col(_, j, _, _, _)) => d + t.tRCD <= j
    case (Ref(d), Ref(e)) => d <= e
  }

  ghost predicate LogOk(t: Timing, log: seq<Command>) {
    forall i, j | 0 <= i < j < |log| :: Apart(t, log[i], log[j])
  }

  // What the bank and bus state remember about one command of the log.
  predicate Remembered(t: Timing, banks: seq<BankState>, bus: Bus, x: Command) {
    match x
    case Act(b, i, _) => b < |banks| && i <= banks[b].lastAct && i + t.tRAS <= banks[b].minPre
                      && i + t.tRCD <= banks[b].lastCmd
    case Col(b, i, w, _, _) =>
      && b < |banks| && i <= banks[b].lastCmd && i + ToPre(t, w) <= banks[b].minPre
      && i + t.tCL + t.tBL <= bus.minResp
      && (w && !bus.lastWasWrite ==> i + t.tCL + t.tBL + t.tWTR + t.tCL <= bus.minResp)
    case Ref(d) =>
      forall b | 0 <= b < |banks| ::
        d <= banks[b].minPre + t.tRP && (banks[b].open ==> d + t.tRCD <= banks[b].lastCmd)
  }

  ghost predicate ChannelOk(t: Timing, banks: seq<BankState>, bus: Bus, log: seq<Command>) {
    && t.Ok() && bus.minResp >= t.tCL + t.tBL + 1 && |banks| > 0
    && LogOk(t, log)
    && (forall i | 0 <= i < |log| :: Remembered(t, banks, bus, log[i]))
    && (forall b | 0 <= b < |banks| :: banks[b].open ==> banks[b].lastAct + t.tRCD <= banks[b].lastCmd)
    && (forall b | 0 <= b < |banks| :: banks[b].lastCmd <= banks[b].minPre)
  }

  // The commands that issuing r adds to the log.
  function IssuedCommands(t: Timing, b: BankState, bus: Bus, r: Request, windowMin: nat, cur: nat,
                          close: bool): seq<Command>
    requires bus.minResp >= t.tCL
  {
    (if RowHit(b, r) then [] else [Act(r.bank, ActCycle(t, b, r, windowMin), r.row)])
    + [Col(r.bank, CmdCycle(t, b, bus, r, windowMin, cur), r.write, r.row, close)]
  }

  // A request is issued only when its minimum command cycle has come.
  ghost predicate CanIssue(t: Timing, banks: seq<BankState>, bus: Bus, r: Request, windowMin: nat, cur: nat) {
    r.bank < |banks| && FindMinCmdCycle(t, banks[r.bank], r, windowMin) <= cur
  }

  // The assert before the command is recorded: commands of a bank are strictly later each time.
  lemma CommandLater(t: Timing, banks: seq<BankState>, bus: Bus, log: seq<Command>, r: Request, windowMin: nat,
                     cur: nat)
    requires ChannelOk(t, banks, bus, log) && CanIssue(t, banks, bus, r, windowMin, cur)
    ensures banks[r.bank].lastCmd < CmdCycle(t, banks[r.bank], bus, r, windowMin, cur)
    ensures !RowHit(banks[r.bank], r) ==> banks[r.bank].minPre + t.tRP <= ActCycle(t, banks[r.bank], r, windowMin)
  {
  }

  lemma IssueAct(t: Timing, banks: seq<BankState>, bus: Bus, log: seq<Command>, r: Request, windowMin: nat, cur: nat)
    requires ChannelOk(t, banks, bus, log) && CanIssue(t, banks, bus, r, windowMin, cur)
    requires !RowHit(banks[r.bank], r)
    ensures forall i | 0 <= i < |log| :: Apart(t, log[i], Act(r.bank, ActCycle(t, banks[r.bank], r, windowMin), r.row))
  {
    CommandLater(t, banks, bus, log, r, windowMin, cur);
    forall i | 0 <= i < |log| ensures Apart(t, log[i], Act(r.bank, ActCycle(t, banks[r.bank], r, windowMin), r.row)) {
      assert Remembered(t, banks, bus, log[i]);
    }
  }

  lemma IssueCol(t: Timing, banks: seq<BankState>, bus: Bus, log: seq<Command>, r: Request, windowMin: nat, cur: nat,
                 close: bool)
    requires ChannelOk(t, banks, bus, log) && CanIssue(t, banks, bus, r, windowMin, cur)
    ensures forall i | 0 <= i < |log| ::
              Apart(t, log[i], Col(r.bank, CmdCycle(t, banks[r.bank], bus, r, windowMin, cur), r.write, r.row, close))
  {
    CommandLater(t, banks, bus, log, r, windowMin, cur);
    forall i | 0 <= i < |log|
      ensures Apart(t, log[i], Col(r.bank, CmdCycle(t, banks[r.bank], bus, r, windowMin, cur), r.write, r.row, close))
    {
      assert Remembered(t, banks, bus, log[i]);
    }
  }

  lemma IssueKeeps(t: Timing, banks: seq<BankState>, bus: Bus, log: seq<Command>, r: Request, windowMin: nat,
                   cur: nat, closedPage: bool, keepOpen: bool, x: Command)
    requires ChannelOk(t, banks, bus, log) && CanIssue(t, banks, bus, r, windowMin, cur) && Remembered(t, banks, bus, x)
    ensures Remembered(t, banks[r.bank := IssuedBank(t, banks[r.bank], bus, r, windowMin, cur, closedPage, keepOpen)],
                       IssuedBus(t, banks[r.bank], bus, r, windowMin, cur), x)
  {
    CommandLater(t, banks, bus, log, r, windowMin, cur);
    hide LogOk;
  }

  lemma IssueRemembers(t: Timing, banks: seq<BankState>, bus: Bus, log: seq<Command>, r: Request, windowMin: nat,
                       cur: nat, closedPage: bool, keepOpen: bool, x: Command)
    requires ChannelOk(t, banks, bus, log) && CanIssue(t, banks, bus, r, windowMin, cur)
    requires x in log || x in IssuedCommands(t, banks[r.bank], bus, r, windowMin, cur, closedPage && !keepOpen)
    ensures Remembered(t, banks[r.bank := IssuedBank(t, banks[r.bank], bus, r, windowMin, cur, closedPage, keepOpen)],
                       IssuedBus(t, banks[r.bank], bus, r, windowMin, cur), x)
  {
    if x in log {
      hide IssuedBank, IssuedBus, FindMinCmdCycle;
      IssueKeeps(t, banks, bus, log, r, windowMin, cur, closedPage, keepOpen, x);
    } else {
      CommandLater(t, banks, bus, log, r, windowMin, cur);
      hide ChannelOk;
    }
  }

  // Issuing a ready request keeps every timing constraint, with open and with closed pages.
  lemma IssueOk(t: Timing, banks: seq<BankState>, bus: Bus, log: seq<Command>, r: Request, windowMin: nat,
                cur: nat, closedPage: bool, keepOpen: bool)
    requires ChannelOk(t, banks, bus, log) && CanIssue(t, banks, bus, r, windowMin, cur)
    ensures ChannelOk(t, banks[r.bank := IssuedBank(t, banks[r.bank], bus, r, windowMin, cur, closedPage, keepOpen)],
                      IssuedBus(t, banks[r.bank], bus, r, windowMin, cur),
                      log + IssuedCommands(t, banks[r.bank], bus, r, windowMin, cur, closedPage && !keepOpen))
  {
    var after := log + IssuedCommands(t, banks[r.bank], bus, r, windowMin, cur, closedPage && !keepOpen);
    var bs := banks[r.bank := IssuedBank(t, banks[r.bank], bus, r, windowMin, cur, closedPage, keepOpen)];
    IssueCol(t, banks, bus, log, r, windowMin, cur, closedPage && !keepOpen);
    if !RowHit(banks[r.bank], r) { IssueAct(t, banks, bus, log, r, windowMin, cur); }
    forall i | 0 <= i < |after|
      ensures Remembered(t, bs, IssuedBus(t, banks[r.bank], bus, r, windowMin, cur), after[i])
    {
      IssueRemembers(t, banks, bus, log, r, windowMin, cur, closedPage, keepOpen, after[i]);
    }
    CommandLater(t, banks, bus, log, r, windowMin, cur);
  }

  lemma {:induction false} MaxPreBound(banks: seq<BankState>, m: nat)
    ensures MaxPre(banks, m) >= m
    ensures forall b | 0 <= b < |banks| :: banks[b].minPre <= MaxPre(banks, m) && banks[b].lastCmd <= MaxPre(banks, m)
  {
    if banks != [] { MaxPreBound(banks[..|banks| - 1], m); }
  }

  // A refresh closes every row and keeps every timing constraint.
  lemma RefreshOk(t: Timing, banks: seq<BankState>, bus: Bus, log: seq<Command>, memCycle: nat)
    requires ChannelOk(t, banks, bus, log)
    ensures var done := RefreshDone(t, banks, memCycle);
            done >= t.tRP && done >= memCycle + t.tRFC
            && ChannelOk(t, Refreshed(t, banks, done), bus, log + [Ref(done)])
  {
    MaxPreBound(banks, memCycle);
    var done := RefreshDone(t, banks, memCycle);
    var bs, after := Refreshed(t, banks, done), log + [Ref(done)];
    forall i | 0 <= i < |log| ensures Apart(t, log[i], Ref(done)) && Remembered(t, bs, bus, log[i]) {
      assert Remembered(t, banks, bus, log[i]);
    }
  }
}
