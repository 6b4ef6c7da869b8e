/**
 * The hardening engine: the posture score over the six checks, the
 * remediation baseline (four independent absolute writes, each of which may
 * fail), and the field-compliance audit. The machine is a store plus the
 * answer the Guest-account query would give; the engine's operations run
 * against it and append to the audit log.
 */
module Hardening {
  import opened Wrappers
  import opened Decimal
  import opened Ascii
  import opened Registry
  import opened Checks
  import opened AuditLog

  /** The configuration the engine reads and changes. */
  class Machine {
    var store: Store
    var guest: GuestQuery

    constructor (store: Store, guest: GuestQuery)
      ensures this.store == store && this.guest == guest
    {
      this.store := store;
      this.guest := guest;
    }
  }

  // ---------------------------------------------------------------- score

  /** The denominator of the score: fixed, whatever the checks report. */
  const TotalChecks := 6

  /** The six checks, in the order the score runs them. */
  function Outcomes(st: Store, guest: GuestQuery): seq<CheckOutcome> {
    [CheckRDPStatus(st), CheckSMBv1(st), CheckGuestAccount(guest),
     CheckLSAProtection(st), CheckAutoLogon(st), CheckCredentialGuard(st)]
  }

  function PassCount(os: seq<CheckOutcome>): (n: nat)
    ensures n <= |os|
  {
    if os == [] then 0 else (if os[0].passed then 1 else 0) + PassCount(os[1..])
  }

  /** `(int)((double)score / totalChecks * 100)`, for 0..6 passing checks: the floor of 100 * score / 6. */
  function ScoreOf(passing: nat): int
    requires passing <= TotalChecks
  {
    100 * passing / TotalChecks
  }

  function HardeningScore(st: Store, guest: GuestQuery): int {
    ScoreOf(PassCount(Outcomes(st, guest)))
  }

  /** The score is a percentage with seven possible values; all pass gives 100, none gives 0. */
  lemma ScoreValues(passing: nat)
    requires passing <= TotalChecks
    ensures 0 <= ScoreOf(passing) <= 100
    ensures ScoreOf(passing) == [0, 16, 33, 50, 66, 83, 100][passing]
    ensures ScoreOf(passing) == 100 <==> passing == TotalChecks
    ensures ScoreOf(passing) == 0 <==> passing == 0
  {
    assert passing in {0, 1, 2, 3, 4, 5, 6};
  }

  /** More passing checks never lower the score. */
  lemma ScoreMonotone(a: nat, b: nat)
    requires a <= b <= TotalChecks
    ensures ScoreOf(a) <= ScoreOf(b)
  {
    ScoreValues(a);
    ScoreValues(b);
  }

  /** The number of outcomes that passed, one by one. */
  lemma PassCountOfSix(os: seq<CheckOutcome>)
    requires |os| == 6
    ensures PassCount(os) == (if os[0].passed then 1 else 0) + (if os[1].passed then 1 else 0)
                           + (if os[2].passed then 1 else 0) + (if os[3].passed then 1 else 0)
                           + (if os[4].passed then 1 else 0) + (if os[5].passed then 1 else 0)
  {
    OutcomesOfThree(os[..3], "");
    OutcomesOfThree(os[3..], "");
    PassCountAppend(os[..3], os[3..]);
    assert os[..3] + os[3..] == os;
  }

  /**
   * A store with nothing in it: every fail-closed check fails and the
   * fail-open auto-logon check passes, so the score is 16, or 33 when the
   * Guest query reports the account disabled.
   */
  lemma EmptyStoreScore(guest: GuestQuery)
    ensures var empty := Store(map[], map[], map[]);
            && !CheckRDPStatus(empty).passed && !CheckSMBv1(empty).passed
            && !CheckLSAProtection(empty).passed && !CheckCredentialGuard(empty).passed
            && CheckAutoLogon(empty).passed
            && HardeningScore(empty, guest) == if CheckGuestAccount(guest).passed then 33 else 16
  {
    PassCountOfSix(Outcomes(Store(map[], map[], map[]), guest));
  }

  /** The log entry a check writes when it caught an exception. */
  function ErrorLog(o: CheckOutcome, clock: string): seq<AuditLogEntry> {
    if o.error.Some? then [AuditLogEntry(clock, o.error.value, "ERROR")] else []
  }

  function ErrorsLog(os: seq<CheckOutcome>, clock: string): seq<AuditLogEntry> {
    if os == [] then [] else ErrorLog(os[0], clock) + ErrorsLog(os[1..], clock)
  }

  /** The number of checks that caught an exception. */
  function ErrorCount(os: seq<CheckOutcome>): (n: nat)
    ensures n <= |os|
  {
    if os == [] then 0 else (if os[0].error.Some? then 1 else 0) + ErrorCount(os[1..])
  }

  /** The checks log one ERROR entry per check that caught an exception, and nothing else. */
  lemma {:induction false} ErrorsLogFacts(os: seq<CheckOutcome>, clock: string)
    ensures |ErrorsLog(os, clock)| == ErrorCount(os)
    ensures forall i :: 0 <= i < |ErrorsLog(os, clock)| ==> ErrorsLog(os, clock)[i].kind == "ERROR"
    decreases |os|
  {
    if os != [] {
      ErrorsLogFacts(os[1..], clock);
    }
  }

  /** Calling one check: its result, and its ERROR entry when it caught an exception. */
  method RunCheck(o: CheckOutcome, log: AuditLogger) returns (passed: bool)
    modifies log`logs
    ensures passed == o.passed
    ensures log.logs == old(log.logs) + ErrorLog(o, log.clock)
  {
    if o.error.Some? {
      log.Log(o.error.value, "ERROR");
    }
    passed := o.passed;
  }

  /** The passes of two runs taken one after the other add up. */
  lemma {:induction false} PassCountAppend(a: seq<CheckOutcome>, b: seq<CheckOutcome>)
    ensures PassCount(a + b) == PassCount(a) + PassCount(b)
    decreases |a|
  {
    if a == [] {
      assert a + b == b;
    } else {
      PassCountAppend(a[1..], b);
      assert (a + b)[0] == a[0];
      assert (a + b)[1..] == a[1..] + b;
    }
  }

  /** The entries of two runs taken one after the other follow each other. */
  lemma {:induction false} ErrorsLogAppend(a: seq<CheckOutcome>, b: seq<CheckOutcome>, clock: string)
    ensures ErrorsLog(a + b, clock) == ErrorsLog(a, clock) + ErrorsLog(b, clock)
    decreases |a|
  {
    if a == [] {
      assert a + b == b;
    } else {
      ErrorsLogAppend(a[1..], b, clock);
      assert (a + b)[0] == a[0];
      assert (a + b)[1..] == a[1..] + b;
      var head, rest, tail := ErrorLog(a[0], clock), ErrorsLog(a[1..], clock), ErrorsLog(b, clock);
      assert head + (rest + tail) == (head + rest) + tail;
    }
  }

  /** Three checks, one by one. */
  lemma OutcomesOfThree(t: seq<CheckOutcome>, clock: string)
    requires |t| == 3
    ensures PassCount(t) == (if t[0].passed then 1 else 0) + (if t[1].passed then 1 else 0) + (if t[2].passed then 1 else 0)
    ensures ErrorsLog(t, clock) == ErrorLog(t[0], clock) + ErrorLog(t[1], clock) + ErrorLog(t[2], clock)
  {
    var s1, s2 := t[1..], t[2..];
    assert s1[1..] == s2 && s2[1..] == [];
    assert PassCount(s2) == if t[2].passed then 1 else 0;
    assert ErrorsLog(s2, clock) == ErrorLog(t[2], clock);
    assert PassCount(s1) == (if t[1].passed then 1 else 0) + PassCount(s2);
    assert ErrorsLog(s1, clock) == ErrorLog(t[1], clock) + ErrorsLog(s2, clock);
  }

  /** Runs the six checks afresh, counting the ones that pass; an errored check counts as failed. */
  method CalculateHardeningScore(m: Machine, log: AuditLogger) returns (score: int)
    modifies log`logs
    ensures score == HardeningScore(m.store, m.guest)
    ensures log.logs == old(log.logs) + ErrorsLog(Outcomes(m.store, m.guest), log.clock)
  {
    var passing := RunSix(Outcomes(m.store, m.guest), log);
    score := 100 * passing / TotalChecks;
  }

  /**
   * The six calls in turn, each one's ERROR entry after the previous one's.
   * The split into two runs of three is not in the source, which makes the
   * six calls in one block; it only keeps each proof small.
   */
  method RunSix(os: seq<CheckOutcome>, log: AuditLogger) returns (passing: nat)
    requires |os| == 6
    modifies log`logs
    ensures passing == PassCount(os)
    ensures log.logs == old(log.logs) + ErrorsLog(os, log.clock)
  {
    var first := RunThree(os[..3], log);
    var second := RunThree(os[3..], log);
    passing := first + second;
    PassCountAppend(os[..3], os[3..]);
    ErrorsLogAppend(os[..3], os[3..], log.clock);
    assert os[..3] + os[3..] == os;
  }

  /** Three of the calls. */
  method RunThree(t: seq<CheckOutcome>, log: AuditLogger) returns (passing: nat)
    requires |t| == 3
    modifies log`logs
    ensures passing == PassCount(t)
    ensures log.logs == old(log.logs) + ErrorsLog(t, log.clock)
  {
    OutcomesOfThree(t, log.clock);
    var p0 := RunCheck(t[0], log);
    var p1 := RunCheck(t[1], log);
    var p2 := RunCheck(t[2], log);
    passing := (if p0 then 1 else 0) + (if p1 then 1 else 0) + (if p2 then 1 else 0);
  }

  // ------------------------------------------------------------- baseline

  /** Running `Disable-LocalUser -Name 'Guest'`. */
  datatype ScriptRun = Ran(hadErrors: bool) | RunThrew(message: string)

  /** What the Guest query answers once the account has been disabled. */
  const GuestDisabled := Invoked(false, [PSBool(false)])

  function BaselineStore(st: Store): Store {
    var s1 := AfterWrite(st, TerminalServerKey, "fDenyTSConnections", DWord(1));
    var s2 := AfterWrite(s1, LanmanServerKey, "SMB1", DWord(0));
    AfterWrite(s2, LsaKey, "RunAsPPL", DWord(1))
  }

  function BaselineGuest(guest: GuestQuery, disable: ScriptRun): GuestQuery {
    if disable == Ran(false) then GuestDisabled else guest
  }

  /** The entry one registry action logs: SUCCESS, or ERROR with the exception message. */
  function WriteEntry(r: WriteResult, success: string, failure: string, clock: string): AuditLogEntry {
    match r
    case Written(_) => AuditLogEntry(clock, success, "SUCCESS")
    case WriteFailed(msg) => AuditLogEntry(clock, failure + msg, "ERROR")
  }

  function GuestEntry(disable: ScriptRun, clock: string): AuditLogEntry {
    match disable
    case Ran(hadErrors) =>
      if hadErrors then AuditLogEntry(clock, "Failed to disable Guest account via PowerShell.", "ERROR")
      else AuditLogEntry(clock, "Guest Account Disabled.", "SUCCESS")
    case RunThrew(msg) => AuditLogEntry(clock, "Failed to disable Guest Account: " + msg, "ERROR")
  }

  const BaselineStart := "Starting Hardening Baseline Application..."
  const BaselineDone := "Hardening Baseline Application Complete."

  function BaselineLog(st: Store, disable: ScriptRun, clock: string): seq<AuditLogEntry> {
    var s1 := AfterWrite(st, TerminalServerKey, "fDenyTSConnections", DWord(1));
    var s2 := AfterWrite(s1, LanmanServerKey, "SMB1", DWord(0));
    [AuditLogEntry(clock, BaselineStart, "INFO"),
     WriteEntry(SetValue(st, TerminalServerKey, "fDenyTSConnections", DWord(1)), "RDP Disabled.", "Failed to disable RDP: ", clock),
     WriteEntry(SetValue(s1, LanmanServerKey, "SMB1", DWord(0)), "SMBv1 Disabled.", "Failed to disable SMBv1: ", clock),
     WriteEntry(SetValue(s2, LsaKey, "RunAsPPL", DWord(1)), "LSA Protection Enabled.", "Failed to enable LSA: ", clock),
     GuestEntry(disable, clock),
     AuditLogEntry(clock, BaselineDone, "INFO")]
  }

  /** One `try { Registry.SetValue(...); Log(success) } catch { Log(failure + message) }` block. */
  method WriteAction(m: Machine, p: KeyPath, name: string, v: RegValue, success: string, failure: string, log: AuditLogger)
    modifies m`store, log`logs
    ensures m.store == AfterWrite(old(m.store), p, name, v)
    ensures log.logs == old(log.logs) + [WriteEntry(SetValue(old(m.store), p, name, v), success, failure, log.clock)]
  {
    var r := SetValue(m.store, p, name, v);
    match r {
      case Written(s) =>
        m.store := s;
        log.Log(success, "SUCCESS");
      case WriteFailed(msg) =>
        log.Log(failure + msg, "ERROR");
    }
  }

  /** The four remediation actions, in order, each attempted whatever happened to the previous ones. */
  method ApplyHardeningBaseline(m: Machine, disable: ScriptRun, log: AuditLogger)
    modifies m, log`logs
    ensures m.store == BaselineStore(old(m.store))
    ensures m.guest == BaselineGuest(old(m.guest), disable)
    ensures log.logs == old(log.logs) + BaselineLog(old(m.store), disable, log.clock)
  {
    log.Log(BaselineStart, "INFO");
    WriteAction(m, TerminalServerKey, "fDenyTSConnections", DWord(1), "RDP Disabled.", "Failed to disable RDP: ", log);
    WriteAction(m, LanmanServerKey, "SMB1", DWord(0), "SMBv1 Disabled.", "Failed to disable SMBv1: ", log);
    WriteAction(m, LsaKey, "RunAsPPL", DWord(1), "LSA Protection Enabled.", "Failed to enable LSA: ", log);
    DisableGuest(m, disable, log);
    log.Log(BaselineDone, "INFO");
  }

  /** The Guest step: disabled only when the script ran without errors, and one entry logged either way. */
  method DisableGuest(m: Machine, disable: ScriptRun, log: AuditLogger)
    modifies m`guest, log`logs
    ensures m.guest == BaselineGuest(old(m.guest), disable)
    ensures log.logs == old(log.logs) + [GuestEntry(disable, log.clock)]
  {
    match disable {
      case Ran(hadErrors) =>
        if hadErrors {
          log.Log("Failed to disable Guest account via PowerShell.", "ERROR");
        } else {
          m.guest := GuestDisabled;
          log.Log("Guest Account Disabled.", "SUCCESS");
        }
      case RunThrew(msg) =>
        log.Log("Failed to disable Guest Account: " + msg, "ERROR");
    }
  }

  /** The key paths the engine touches are pairwise different keys (their folded paths differ in length). */
  lemma BaselineKeysDistinct()
    ensures Canonical(TerminalServerKey) != Canonical(LanmanServerKey)
    ensures Canonical(TerminalServerKey) != Canonical(LsaKey)
    ensures Canonical(LanmanServerKey) != Canonical(LsaKey)
    ensures Canonical(WinlogonKey) !in {Canonical(TerminalServerKey), Canonical(LanmanServerKey), Canonical(LsaKey)}
    ensures Canonical(CredentialGuardKey) !in {Canonical(TerminalServerKey), Canonical(LanmanServerKey), Canonical(LsaKey)}
    ensures Canonical(LsaIsoKey) !in {Canonical(TerminalServerKey), Canonical(LanmanServerKey)}
  {
    LsaKeysAlias();
  }

  /** The three keys the baseline writes to, in canonical form. */
  const BaselineKeys := {Canonical(TerminalServerKey), Canonical(LanmanServerKey), Canonical(LsaKey)}

  /**
   * Reading a value the baseline does not write gives what it gave before,
   * except that a missing key the baseline could write to now exists, so a
   * value under it reads as missing rather than its key.
   */
  lemma BaselineFrame(st: Store, q: KeyPath, name: string)
    requires (Canonical(q), Fold(name)) !in {(Canonical(TerminalServerKey), Fold("fDenyTSConnections")),
                                             (Canonical(LanmanServerKey), Fold("SMB1")),
                                             (Canonical(LsaKey), Fold("RunAsPPL"))}
    ensures Read(BaselineStore(st), q, name)
         == if Canonical(q) in BaselineKeys && Writable(st, q) && Read(st, q, name) == KeyMissing then ValueMissing
            else Read(st, q, name)
  {
    BaselineKeysDistinct();
    var s1 := AfterWrite(st, TerminalServerKey, "fDenyTSConnections", DWord(1));
    var s2 := AfterWrite(s1, LanmanServerKey, "SMB1", DWord(0));
    SetValueFails(st, TerminalServerKey, "fDenyTSConnections", DWord(1));
    SetValueFails(s1, LanmanServerKey, "SMB1", DWord(0));
    WriteFrame(st, TerminalServerKey, "fDenyTSConnections", DWord(1), q, name);
    WriteFrame(s1, LanmanServerKey, "SMB1", DWord(0), q, name);
    WriteFrame(s2, LsaKey, "RunAsPPL", DWord(1), q, name);
  }

  /** After the baseline each written value reads back as written when its key took the write, and as before otherwise. */
  lemma BaselineWrites(st: Store)
    ensures Read(BaselineStore(st), TerminalServerKey, "fDenyTSConnections")
         == if Writable(st, TerminalServerKey) then Found(DWord(1)) else Read(st, TerminalServerKey, "fDenyTSConnections")
    ensures Read(BaselineStore(st), LanmanServerKey, "SMB1")
         == if Writable(st, LanmanServerKey) then Found(DWord(0)) else Read(st, LanmanServerKey, "SMB1")
    ensures Read(BaselineStore(st), LsaKey, "RunAsPPL")
         == if Writable(st, LsaKey) then Found(DWord(1)) else Read(st, LsaKey, "RunAsPPL")
    ensures BaselineStore(st).readDenied == st.readDenied && BaselineStore(st).writeDenied == st.writeDenied
  {
    BaselineKeysDistinct();
    var s1 := AfterWrite(st, TerminalServerKey, "fDenyTSConnections", DWord(1));
    var s2 := AfterWrite(s1, LanmanServerKey, "SMB1", DWord(0));
    SetValueFails(st, TerminalServerKey, "fDenyTSConnections", DWord(1));
    SetValueFails(s1, LanmanServerKey, "SMB1", DWord(0));
    SetValueFails(s2, LsaKey, "RunAsPPL", DWord(1));
    ReadAfterWrite(st, TerminalServerKey, "fDenyTSConnections", DWord(1));
    WriteFrame(s1, LanmanServerKey, "SMB1", DWord(0), TerminalServerKey, "fDenyTSConnections");
    WriteFrame(s2, LsaKey, "RunAsPPL", DWord(1), TerminalServerKey, "fDenyTSConnections");
    ReadAfterWrite(s1, LanmanServerKey, "SMB1", DWord(0));
    WriteFrame(st, TerminalServerKey, "fDenyTSConnections", DWord(1), LanmanServerKey, "SMB1");
    WriteFrame(s2, LsaKey, "RunAsPPL", DWord(1), LanmanServerKey, "SMB1");
    ReadAfterWrite(s2, LsaKey, "RunAsPPL", DWord(1));
    WriteFrame(st, TerminalServerKey, "fDenyTSConnections", DWord(1), LsaKey, "RunAsPPL");
    WriteFrame(s1, LanmanServerKey, "SMB1", DWord(0), LsaKey, "RunAsPPL");
  }

  /**
   * Apply and check agree: after the baseline the RDP, SMBv1 and LSA checks
   * pass with no error when their key took the write, and otherwise report
   * exactly what they reported before, so each passes exactly when its write
   * went through or it already passed. The Guest check passes when the
   * disable script ran without errors, and is unchanged otherwise.
   */
  lemma BaselineMakesChecksPass(st: Store, guest: GuestQuery, disable: ScriptRun)
    ensures CheckRDPStatus(BaselineStore(st))
         == if Writable(st, TerminalServerKey) then CheckOutcome(true, None) else CheckRDPStatus(st)
    ensures CheckSMBv1(BaselineStore(st))
         == if Writable(st, LanmanServerKey) then CheckOutcome(true, None) else CheckSMBv1(st)
    ensures CheckLSAProtection(BaselineStore(st))
         == if Writable(st, LsaKey) then CheckOutcome(true, None) else CheckLSAProtection(st)
    ensures CheckRDPStatus(BaselineStore(st)).passed <==> Writable(st, TerminalServerKey) || CheckRDPStatus(st).passed
    ensures CheckSMBv1(BaselineStore(st)).passed <==> Writable(st, LanmanServerKey) || CheckSMBv1(st).passed
    ensures CheckLSAProtection(BaselineStore(st)).passed <==> Writable(st, LsaKey) || CheckLSAProtection(st).passed
    ensures disable == Ran(false) ==> CheckGuestAccount(BaselineGuest(guest, disable)).passed
    ensures disable != Ran(false) ==> CheckGuestAccount(BaselineGuest(guest, disable)) == CheckGuestAccount(guest)
  {
    BaselineWrites(st);
  }

  /** The baseline does not change what the auto-logon and credential-guard checks report. */
  lemma BaselineKeepsOtherChecks(st: Store)
    ensures CheckAutoLogon(BaselineStore(st)) == CheckAutoLogon(st)
    ensures CheckCredentialGuard(BaselineStore(st)) == CheckCredentialGuard(st)
  {
    BaselineKeysDistinct();
    BaselineFrame(st, WinlogonKey, "AutoAdminLogon");
    BaselineFrame(st, CredentialGuardKey, "Enabled");
    // LsaCfgFlags lives in the key RunAsPPL is written to: creating that key
    // turns "key missing" into "value missing", which the check treats alike.
    assert |Fold("LsaCfgFlags")| != |Fold("RunAsPPL")|;
    BaselineFrame(st, LsaIsoKey, "LsaCfgFlags");
  }

  /** Applying the baseline twice leaves the machine as applying it once: every action writes an absolute value. */
  lemma BaselineIdempotent(st: Store, guest: GuestQuery, disable: ScriptRun)
    ensures BaselineStore(BaselineStore(st)) == BaselineStore(st)
    ensures BaselineGuest(BaselineGuest(guest, disable), disable) == BaselineGuest(guest, disable)
  {
    var b := BaselineStore(st);
    BaselineWrites(st);
    BaselineKeysDistinct();
    var t1 := AfterWrite(b, TerminalServerKey, "fDenyTSConnections", DWord(1));
    if Writable(st, TerminalServerKey) {
      WriteExisting(b, TerminalServerKey, "fDenyTSConnections", DWord(1));
    }
    assert t1 == b;
    var t2 := AfterWrite(t1, LanmanServerKey, "SMB1", DWord(0));
    if Writable(st, LanmanServerKey) {
      WriteExisting(b, LanmanServerKey, "SMB1", DWord(0));
    }
    assert t2 == b;
    if Writable(st, LsaKey) {
      WriteExisting(b, LsaKey, "RunAsPPL", DWord(1));
    }
  }

  /**
   * The baseline logs one INFO entry, then exactly one SUCCESS or ERROR entry
   * per action, then one INFO entry; the Guest entry is SUCCESS exactly when
   * the script ran without errors.
   */
  lemma BaselineLogShape(st: Store, disable: ScriptRun, clock: string)
    ensures var entries := BaselineLog(st, disable, clock);
            && |entries| == 6
            && entries[0].kind == "INFO" && entries[0].message == BaselineStart
            && entries[5].kind == "INFO" && entries[5].message == BaselineDone
            && (forall i :: 1 <= i <= 4 ==> entries[i].kind in {"SUCCESS", "ERROR"})
            && (entries[4].kind == "SUCCESS" <==> disable == Ran(false))
  {
    var s1 := AfterWrite(st, TerminalServerKey, "fDenyTSConnections", DWord(1));
    var s2 := AfterWrite(s1, LanmanServerKey, "SMB1", DWord(0));
    WriteEntryKind(st, TerminalServerKey, "fDenyTSConnections", DWord(1), "RDP Disabled.", "Failed to disable RDP: ", clock);
    WriteEntryKind(s1, LanmanServerKey, "SMB1", DWord(0), "SMBv1 Disabled.", "Failed to disable SMBv1: ", clock);
    WriteEntryKind(s2, LsaKey, "RunAsPPL", DWord(1), "LSA Protection Enabled.", "Failed to enable LSA: ", clock);
  }

  /**
   * Each registry action's entry is SUCCESS exactly when its own key takes
   * the write, whether or not an earlier action failed.
   */
  lemma BaselineLogOutcomes(st: Store, disable: ScriptRun, clock: string)
    ensures var entries := BaselineLog(st, disable, clock);
            && (entries[1].kind == "SUCCESS" <==> Writable(st, TerminalServerKey))
            && (entries[2].kind == "SUCCESS" <==> Writable(st, LanmanServerKey))
            && (entries[3].kind == "SUCCESS" <==> Writable(st, LsaKey))
  {
    var s1 := AfterWrite(st, TerminalServerKey, "fDenyTSConnections", DWord(1));
    var s2 := AfterWrite(s1, LanmanServerKey, "SMB1", DWord(0));
    WriteEntryKind(st, TerminalServerKey, "fDenyTSConnections", DWord(1), "RDP Disabled.", "Failed to disable RDP: ", clock);
    WriteEntryKind(s1, LanmanServerKey, "SMB1", DWord(0), "SMBv1 Disabled.", "Failed to disable SMBv1: ", clock);
    WriteEntryKind(s2, LsaKey, "RunAsPPL", DWord(1), "LSA Protection Enabled.", "Failed to enable LSA: ", clock);
    SetValueFails(st, TerminalServerKey, "fDenyTSConnections", DWord(1));
    SetValueFails(s1, LanmanServerKey, "SMB1", DWord(0));
  }

  /** One action's entry is SUCCESS exactly when its key took the write, and ERROR otherwise. */
  lemma WriteEntryKind(st: Store, p: KeyPath, name: string, v: RegValue, success: string, failure: string, clock: string)
    ensures var e := WriteEntry(SetValue(st, p, name, v), success, failure, clock);
            && e.kind in {"SUCCESS", "ERROR"}
            && (e.kind == "SUCCESS" <==> Writable(st, p))
  {
    SetValueFails(st, p, name, v);
  }

  // ----------------------------------------------------- field compliance

  const DesktopKey := KeyPath(CurrentUser, @"Control Panel\Desktop")
  const StoragePolicyKey := KeyPath(LocalMachine, ControlPath + "StorageDevicePolicies")

  const ScreenSaverIssue := "Screen Saver Password Protection is DISABLED."
  const TimeoutUnsetIssue := "Screen Lock Timeout not set."
  const UsbIssue := "USB Write Protection is DISABLED."
  const UsbKeyMissingIssue := "USB Write Protection is DISABLED (Key missing)."
  const AuditErrorIssue := "Error running field compliance checks."

  function TimeoutIssue(seconds: int): string {
    "Screen Lock Timeout is too long (" + IntToString(seconds / 60) + " mins). Max allowed: 15 mins."
  }

  /** The issues found, and the message logged at ERROR level when the audit caught an exception. */
  datatype FieldAudit = FieldAudit(issues: seq<string>, error: Option<string>)

  /** The screen-saver rules, applied to the values of an existing Desktop key. */
  function DesktopIssues(values: map<string, RegValue>): seq<string> {
    var secure := GetValue(values, "ScreenSaverIsSecure");
    var timeout := GetValue(values, "ScreenSaveTimeOut");
    var seconds := if timeout.Some? then TryParseInt32(ValueText(timeout.value)) else None;
    (if secure.None? || ValueText(secure.value) != "1" then [ScreenSaverIssue] else [])
    + (if seconds.None? then [TimeoutUnsetIssue]
       else if seconds.value > 900 then [TimeoutIssue(seconds.value)] else [])
  }

  /** The catch block: the issues found so far, then the error issue. */
  function Aborted(found: seq<string>, message: string): FieldAudit {
    FieldAudit(found + [AuditErrorIssue], Some("Field Compliance Audit Error: " + message))
  }

  function FieldCompliance(st: Store): FieldAudit {
    var desktop := OpenSubKey(st, DesktopKey);
    if desktop.Denied? then Aborted([], desktop.message)
    else
      var found := if desktop.Values? then DesktopIssues(desktop.values) else [];
      var storage := OpenSubKey(st, StoragePolicyKey);
      if storage.Denied? then Aborted(found, storage.message)
      else
        var (more, cast) := StorageRules(storage);
        if cast.Some? then Aborted(found + more, cast.value) else FieldAudit(found + more, None)
  }

  /** The rules on the storage policy key: the issues they add and, for a non-DWORD value, the failed cast. */
  function StorageRules(storage: Opened): (r: (seq<string>, Option<string>))
    requires !storage.Denied?
    ensures r.1.Some? <==> storage.Values? && GetValue(storage.values, "WriteProtect").Some?
                           && GetValue(storage.values, "WriteProtect").value.Str?
    ensures r.1.Some? ==> r.0 == []
    ensures r.0 == [] <==> r.1.Some? || (storage.Values? && GetValue(storage.values, "WriteProtect") == Some(DWord(1)))
  {
    match storage
    case Absent => ([UsbKeyMissingIssue], None)
    case Values(values) =>
      match GetValue(values, "WriteProtect")
      case None => ([UsbIssue], None)
      case Some(v) =>
        match v
        case DWord(n) => (if n != 1 then [UsbIssue] else [], None)
        case Str(_) => ([], Some(CastToInt32Message))
  }

  /** The screen-saver rules, one issue at a time, on an existing Desktop key. */
  method ScanDesktop(values: map<string, RegValue>) returns (issues: seq<string>)
    ensures issues == DesktopIssues(values)
    ensures |issues| <= 2
  {
    issues := [];
    var secure := GetValue(values, "ScreenSaverIsSecure");
    if secure.None? || ValueText(secure.value) != "1" {
      issues := issues + [ScreenSaverIssue];
    }
    var timeout := GetValue(values, "ScreenSaveTimeOut");
    var seconds := if timeout.Some? then TryParseInt32(ValueText(timeout.value)) else None;
    if seconds.Some? {
      if seconds.value > 900 {
        issues := issues + [TimeoutIssue(seconds.value)];
      }
    } else {
      issues := issues + [TimeoutUnsetIssue];
    }
  }

  /** `AuditFieldCompliance`: builds the issue list rule by rule. */
  method AuditFieldCompliance(m: Machine, log: AuditLogger) returns (issues: seq<string>)
    modifies log`logs
    ensures issues == FieldCompliance(m.store).issues
    ensures log.logs == old(log.logs)
                        + (var e := FieldCompliance(m.store).error;
                           if e.Some? then [AuditLogEntry(log.clock, e.value, "ERROR")] else [])
  {
    issues := [];
    var failure: Option<string> := None;
    var desktop := OpenSubKey(m.store, DesktopKey);
    if desktop.Denied? {
      failure := Some(desktop.message);
    } else {
      if desktop.Values? {
        issues := ScanDesktop(desktop.values);
      }
      var storage := OpenSubKey(m.store, StoragePolicyKey);
      if storage.Denied? {
        failure := Some(storage.message);
      } else {
        var (more, cast) := StorageRules(storage);
        issues := issues + more;
        failure := cast;
      }
    }
    if failure.Some? {
      log.Log("Field Compliance Audit Error: " + failure.value, "ERROR");
      issues := issues + [AuditErrorIssue];
    }
  }

  /**
   * No issue is reported exactly when the Desktop key is missing or its
   * screen saver is password-protected with a lock timeout of at most 900
   * seconds, and the storage policy key holds WriteProtect as the DWORD 1.
   */
  lemma FieldCompliantIff(st: Store)
    ensures FieldCompliance(st).issues == [] <==>
              (&& !Read(st, DesktopKey, "ScreenSaverIsSecure").KeyDenied?
               && (Read(st, DesktopKey, "ScreenSaverIsSecure") != KeyMissing ==>
                     && Read(st, DesktopKey, "ScreenSaverIsSecure") in {Found(DWord(1)), Found(Str("1"))}
                     && Read(st, DesktopKey, "ScreenSaveTimeOut").Found?
                     && var t := TryParseInt32(ValueText(Read(st, DesktopKey, "ScreenSaveTimeOut").value));
                        t.Some? && t.value <= 900)
               && Read(st, StoragePolicyKey, "WriteProtect") == Found(DWord(1)))
  {
    var desktop := OpenSubKey(st, DesktopKey);
    if desktop.Values? {
      DesktopIssuesEmpty(desktop.values);
    }
  }

  /** The Desktop rules report nothing exactly for a protected screen saver and a parsable timeout of at most 900 seconds. */
  lemma DesktopIssuesEmpty(values: map<string, RegValue>)
    ensures DesktopIssues(values) == [] <==>
              && GetValue(values, "ScreenSaverIsSecure") in {Some(DWord(1)), Some(Str("1"))}
              && GetValue(values, "ScreenSaveTimeOut").Some?
              && var t := TryParseInt32(ValueText(GetValue(values, "ScreenSaveTimeOut").value));
                 t.Some? && t.value <= 900
  {
    var secure := GetValue(values, "ScreenSaverIsSecure");
    if secure.Some? && secure.value.DWord? {
      IntToStringIsOne(secure.value.n);
    }
  }

  /** The audit logs an error exactly when it ends with the error issue, which it adds only then. */
  lemma FieldErrorIff(st: Store)
    ensures var a := FieldCompliance(st);
            && (a.error.Some? <==> |a.issues| > 0 && a.issues[|a.issues| - 1] == AuditErrorIssue)
            && (a.error.Some? <==>
                  (|| Read(st, DesktopKey, "ScreenSaverIsSecure").KeyDenied?
                   || Throws(Read(st, StoragePolicyKey, "WriteProtect"))))
            && |a.issues| <= 3
  {
  }

  /** A DWORD timeout always parses, so "not set" is reported only for a missing or non-numeric value. */
  lemma DWordTimeoutIsSet(values: map<string, RegValue>, n: int32)
    requires GetValue(values, "ScreenSaveTimeOut") == Some(DWord(n))
    ensures TimeoutUnsetIssue !in DesktopIssues(values)
    ensures n > 900 <==> TimeoutIssue(n) in DesktopIssues(values)
  {
    TryParseIntToString(n);
    TimeoutIssueDistinct(n);
  }

  /** The too-long message differs from the other two Desktop messages. */
  lemma TimeoutIssueDistinct(seconds: int)
    ensures TimeoutIssue(seconds) != ScreenSaverIssue && TimeoutIssue(seconds) != TimeoutUnsetIssue
  {
    assert TimeoutIssue(seconds)[7] == 'L' && ScreenSaverIssue[7] == 'S';
    assert TimeoutIssue(seconds)[20] == 'i' && TimeoutUnsetIssue[20] == 'n';
  }
}
