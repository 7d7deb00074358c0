/** The Android `BluetoothScanManager`: a `scanning` flag with two lists of
    hook actions, one run just before a Bluetooth LE scan starts and one
    run when it stops. A scan stops on a second request, on an explicit
    stop, or when the delayed stop scheduled at its start fires. The
    Android scanner is reduced to whether it is present and to the start
    and stop requests it receives; the hooks are identified by number and
    the model records the order in which they run. */
module ScanManager {

  /** A registered hook (a Kotlin `() -> Unit`), known by its identity. */
  type ActionId = nat

  /** What the manager asks of the Bluetooth LE scanner. */
  datatype ScannerCall = StartScan | StopScan

  /** The outside events the manager reacts to: `scanBleDevices`,
      `stopScanDevices` (each seeing whether the adapter currently offers a
      scanner), and the delayed stop that a started scan schedules. */
  datatype ScanEvent = Scan(scannerPresent: bool) | Stop(scannerPresent: bool) | Timer

  /** Which hook list an event runs. */
  datatype Phase = NoHooks | BeforeHooks | AfterHooks

  datatype Transition = Transition(scanning: bool, fired: Phase)

  /** The state machine of `scanBleDevices` (with its inner `stopScan`),
      `stopScanDevices` and the posted `stopScan`. The before hooks run
      exactly when a scan starts and the after hooks exactly when a running
      scan is stopped while a scanner is available; a missing scanner
      clears the flag without running any hook. */
  function Next(scanning: bool, e: ScanEvent): (r: Transition)
    ensures r.fired == BeforeHooks <==> !scanning && e == Scan(true)
    ensures r.fired == AfterHooks <==> scanning && (e.Timer? || e.scannerPresent)
    ensures r.scanning <==> r.fired == BeforeHooks
    ensures r.fired == AfterHooks ==> scanning && !r.scanning
    ensures (e == Scan(false) || e == Stop(false)) ==> r == Transition(false, NoHooks)
    ensures !scanning && e != Scan(true) ==> r == Transition(false, NoHooks)
  {
    match e
    case Scan(present) =>
      if !present then Transition(false, NoHooks)
      else if scanning then Transition(false, AfterHooks)
      else Transition(true, BeforeHooks)
    case Stop(present) =>
      if !present then Transition(false, NoHooks)
      else if scanning then Transition(false, AfterHooks)
      else Transition(false, NoHooks)
    case Timer =>
      if scanning then Transition(false, AfterHooks) else Transition(false, NoHooks)
  }

  /** The hook phases a run of events fires, in order. */
  function Fired(scanning: bool, events: seq<ScanEvent>): seq<Phase>
    decreases |events|
  {
    if events == [] then []
    else
      var t := Next(scanning, events[0]);
      [t.fired] + Fired(t.scanning, events[1..])
  }

  /** The `scanning` flag after a run of events. */
  function Final(scanning: bool, events: seq<ScanEvent>): bool
    decreases |events|
  {
    if events == [] then scanning else Final(Next(scanning, events[0]).scanning, events[1..])
  }

  function Count(phases: seq<Phase>, p: Phase): nat
  {
    if phases == [] then 0 else (if phases[0] == p then 1 else 0) + Count(phases[1..], p)
  }

  function Flag(b: bool): nat { if b then 1 else 0 }

  /** The after hooks run at most once per started scan, whatever the order
      of scans, stops and timer events: every run of the after hooks is
      matched by an earlier start (or by the scan running at the outset),
      and a scan still running at the end has not had its after hooks. */
  lemma {:induction false} AfterHooksOncePerScan(scanning: bool, events: seq<ScanEvent>)
    ensures Count(Fired(scanning, events), AfterHooks) + Flag(Final(scanning, events))
         <= Count(Fired(scanning, events), BeforeHooks) + Flag(scanning)
    decreases |events|
  {
    if events != [] {
      var t := Next(scanning, events[0]);
      AfterHooksOncePerScan(t.scanning, events[1..]);
    }
  }

  /** A stop while no scan is running fires nothing: after a scan has been
      stopped, the delayed stop it scheduled fires no hook when it arrives. */
  lemma TimerAfterManualStop()
    ensures Fired(false, [Scan(true), Stop(true), Timer]) == [BeforeHooks, AfterHooks, NoHooks]
  {
  }

  /** The delayed stop belongs to no particular scan: when a scan is stopped
      by hand and a new one started before the first timer fires, that
      timer ends the second scan early. */
  lemma EarlierTimerEndsLaterScan()
    ensures Fired(false, [Scan(true), Stop(true), Scan(true), Timer])
         == [BeforeHooks, AfterHooks, BeforeHooks, AfterHooks]
    ensures !Final(false, [Scan(true), Stop(true), Scan(true), Timer])
  {
  }

  /** When the scanner disappears during a scan (Bluetooth switched off),
      the flag is cleared and the after hooks of that scan never run. */
  lemma ScannerLostSkipsAfterHooks()
    ensures Fired(false, [Scan(true), Scan(false), Timer]) == [BeforeHooks, NoHooks, NoHooks]
  {
  }

  class BluetoothScanManager {
    var scanning: bool
    var beforeScanActions: seq<ActionId>
    var afterScanActions: seq<ActionId>
    /** Delayed stops posted to the handler and not yet fired. */
    var pendingTimers: nat
    /** Requests sent to the scanner, in order. */
    var scannerCalls: seq<ScannerCall>
    /** Hook actions run, in order. */
    var executed: seq<ActionId>

    constructor()
      ensures !scanning && beforeScanActions == [] && afterScanActions == []
      ensures pendingTimers == 0 && scannerCalls == [] && executed == []
    {
      scanning := false;
      beforeScanActions := [];
      afterScanActions := [];
      pendingTimers := 0;
      scannerCalls := [];
      executed := [];
    }

    /** `beforeScanActions.add`. */
    method AddBeforeScanAction(a: ActionId)
      modifies this
      ensures beforeScanActions == old(beforeScanActions) + [a]
      ensures scanning == old(scanning) && afterScanActions == old(afterScanActions)
      ensures pendingTimers == old(pendingTimers) && scannerCalls == old(scannerCalls) && executed == old(executed)
    {
      beforeScanActions := beforeScanActions + [a];
    }

    /** `afterScanActions.add`. */
    method AddAfterScanAction(a: ActionId)
      modifies this
      ensures afterScanActions == old(afterScanActions) + [a]
      ensures scanning == old(scanning) && beforeScanActions == old(beforeScanActions)
      ensures pendingTimers == old(pendingTimers) && scannerCalls == old(scannerCalls) && executed == old(executed)
    {
      afterScanActions := afterScanActions + [a];
    }

    /** `executeListOfFunctions`: runs the actions one by one, in list order. */
    method ExecuteListOfFunctions(toExecute: seq<ActionId>)
      modifies this
      ensures executed == old(executed) + toExecute
      ensures scanning == old(scanning) && beforeScanActions == old(beforeScanActions)
      ensures afterScanActions == old(afterScanActions)
      ensures pendingTimers == old(pendingTimers) && scannerCalls == old(scannerCalls)
    {
      var i := 0;
      while i < |toExecute|
        invariant 0 <= i <= |toExecute|
        invariant executed == old(executed) + toExecute[..i]
        invariant scanning == old(scanning) && beforeScanActions == old(beforeScanActions)
        invariant afterScanActions == old(afterScanActions)
        invariant pendingTimers == old(pendingTimers) && scannerCalls == old(scannerCalls)
      {
        assert toExecute[..i + 1] == toExecute[..i] + [toExecute[i]];
        executed := executed + [toExecute[i]];
        i := i + 1;
      }
      assert toExecute[..i] == toExecute;
    }

    /** The local `stopScan` of `scanBleDevices`: nothing when no scan runs, otherwise clear the
        flag, stop the scanner and run the after hooks. */
    method StopRunningScan() returns (ran: seq<ActionId>)
      modifies this
      ensures old(scanning) ==> ran == afterScanActions && scannerCalls == old(scannerCalls) + [StopScan]
      ensures !old(scanning) ==> ran == [] && scannerCalls == old(scannerCalls)
      ensures !scanning && executed == old(executed) + ran
      ensures beforeScanActions == old(beforeScanActions) && afterScanActions == old(afterScanActions)
      ensures pendingTimers == old(pendingTimers)
    {
      if !scanning {
        return [];
      }
      scanning := false;
      scannerCalls := scannerCalls + [StopScan];
      ExecuteListOfFunctions(afterScanActions);
      ran := afterScanActions;
    }

    /** `scanBleDevices`: with no scanner, clear the flag; while scanning,
        stop; otherwise post the delayed stop, run the before hooks, set the
        flag and start the scanner. */
    method ScanBleDevices(scannerPresent: bool) returns (ran: seq<ActionId>)
      modifies this
      ensures scanning == Next(old(scanning), Scan(scannerPresent)).scanning
      ensures ran == HooksOf(Next(old(scanning), Scan(scannerPresent)).fired)
      ensures executed == old(executed) + ran
      ensures scannerCalls == old(scannerCalls) + ScannerCallsOf(old(scanning), Scan(scannerPresent))
      ensures pendingTimers == old(pendingTimers) + Flag(!old(scanning) && scannerPresent)
      ensures beforeScanActions == old(beforeScanActions) && afterScanActions == old(afterScanActions)
    {
      if !scannerPresent {
        scanning := false;
        return [];
      }
      if scanning {
        ran := StopRunningScan();
      } else {
        pendingTimers := pendingTimers + 1;
        ExecuteListOfFunctions(beforeScanActions);
        ran := beforeScanActions;
        scanning := true;
        scannerCalls := scannerCalls + [StartScan];
      }
    }

    /** `stopScanDevices`: with no scanner, clear the flag; otherwise stop
        a running scan, and do nothing when none runs. */
    method StopScanDevices(scannerPresent: bool) returns (ran: seq<ActionId>)
      modifies this
      ensures scanning == Next(old(scanning), Stop(scannerPresent)).scanning
      ensures ran == HooksOf(Next(old(scanning), Stop(scannerPresent)).fired)
      ensures executed == old(executed) + ran
      ensures scannerCalls == old(scannerCalls) + ScannerCallsOf(old(scanning), Stop(scannerPresent))
      ensures pendingTimers == old(pendingTimers)
      ensures beforeScanActions == old(beforeScanActions) && afterScanActions == old(afterScanActions)
    {
      if !scannerPresent {
        scanning := false;
        return [];
      }
      ran := StopRunningScan();
    }

    /** The delayed `stopScan` posted by an earlier start fires. */
    method TimerFires() returns (ran: seq<ActionId>)
      requires pendingTimers > 0
      modifies this
      ensures scanning == Next(old(scanning), Timer).scanning
      ensures ran == HooksOf(Next(old(scanning), Timer).fired)
      ensures executed == old(executed) + ran
      ensures scannerCalls == old(scannerCalls) + ScannerCallsOf(old(scanning), Timer)
      ensures pendingTimers == old(pendingTimers) - 1
      ensures beforeScanActions == old(beforeScanActions) && afterScanActions == old(afterScanActions)
    {
      pendingTimers := pendingTimers - 1;
      ran := StopRunningScan();
    }

    /** The hook list a phase runs. */
    function HooksOf(p: Phase): (hooks: seq<ActionId>)
      reads this
      ensures p == NoHooks ==> hooks == []
    {
      match p
      case NoHooks => []
      case BeforeHooks => beforeScanActions
      case AfterHooks => afterScanActions
    }
  }

  /** The scanner requests an event makes: a start when a scan starts, a
      stop when a running scan is stopped, nothing otherwise. */
  function ScannerCallsOf(scanning: bool, e: ScanEvent): (calls: seq<ScannerCall>)
    ensures Next(scanning, e).fired == BeforeHooks <==> calls == [StartScan]
    ensures Next(scanning, e).fired == AfterHooks <==> calls == [StopScan]
    ensures Next(scanning, e).fired == NoHooks <==> calls == []
  {
    match Next(scanning, e).fired
    case NoHooks => []
    case BeforeHooks => [StartScan]
    case AfterHooks => [StopScan]
  }
}
