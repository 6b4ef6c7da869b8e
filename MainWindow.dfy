/**
 * The main window's logic: the dashboard's six check rows and its score,
 * and the network list with its loopback filter. Rendering, navigation,
 * dispatching to the UI thread and message boxes are not modelled.
 */
module MainWindow {
  import opened Wrappers
  import opened Decimal
  import opened Registry
  import opened Checks
  import opened AuditLog
  import opened Hardening
  import opened TcpTable

  /** The two brushes a row can be painted with. */
  datatype Brush = SafeBrush | WarningBrush

  /** `CheckResult`: one row of the dashboard's check list. */
  datatype CheckResult = CheckResult(name: string, status: string, result: string, resultColor: Brush)

  /** The row `AddCheck` builds. */
  function CheckRow(name: string, passed: bool, successMsg: string, failMsg: string): CheckResult {
    CheckResult(name, if passed then successMsg else failMsg,
                if passed then "PASS" else "FAIL",
                if passed then SafeBrush else WarningBrush)
  }

  predicate IsPass(r: CheckResult) {
    r.result == "PASS"
  }

  /**
   * A row tells its outcome back three ways, always in agreement: PASS with
   * the success text and the safe brush exactly when the check passed, FAIL
   * with the failure text and the warning brush otherwise.
   */
  lemma CheckRowOutcome(name: string, passed: bool, successMsg: string, failMsg: string)
    ensures var r := CheckRow(name, passed, successMsg, failMsg);
            && r.name == name
            && (IsPass(r) <==> passed)
            && (r.result == "FAIL" <==> !passed)
            && (r.resultColor == SafeBrush <==> passed)
            && (successMsg != failMsg ==> (r.status == successMsg <==> passed))
  {
  }

  /** Name, success text and failure text of each dashboard row, in display order. */
  datatype Label = Label(name: string, successMsg: string, failMsg: string)

  const Labels: seq<Label> := [
    Label("RDP Status", "RDP Disabled", "RDP Enabled (Unsafe)"),
    Label("SMBv1", "SMBv1 Disabled", "SMBv1 Enabled (Unsafe)"),
    Label("Guest Account", "Disabled", "Enabled (Unsafe)"),
    Label("LSA Protection", "Enabled", "Disabled (Unsafe)"),
    Label("Auto Logon", "Disabled", "Enabled (Unsafe)"),
    Label("Credential Guard", "Enabled", "Disabled/Unknown")
  ]

  function LabelledRow(l: Label, passed: bool): CheckResult {
    CheckRow(l.name, passed, l.successMsg, l.failMsg)
  }

  /** The rows for outcomes under the given labels, one each, in order. */
  function Rows(ls: seq<Label>, os: seq<CheckOutcome>): (rows: seq<CheckResult>)
    requires |ls| == |os|
    ensures |rows| == |os|
  {
    seq(|os|, i requires 0 <= i < |os| => LabelledRow(ls[i], os[i].passed))
  }

  /** The rows shown for six outcomes taken in the score's order. */
  function DashboardRows(os: seq<CheckOutcome>): (rows: seq<CheckResult>)
    requires |os| == |Labels|
    ensures |rows| == |Labels|
  {
    Rows(Labels, os)
  }

  lemma RowsOfThree(ls: seq<Label>, t: seq<CheckOutcome>)
    requires |ls| == |t| == 3
    ensures Rows(ls, t) == [LabelledRow(ls[0], t[0].passed)] + [LabelledRow(ls[1], t[1].passed)]
                           + [LabelledRow(ls[2], t[2].passed)]
  {
  }

  /** Each row carries its label's name and passes exactly when its outcome passed. */
  lemma RowsAgree(ls: seq<Label>, os: seq<CheckOutcome>)
    requires |ls| == |os|
    ensures forall i :: 0 <= i < |os| ==> Rows(ls, os)[i].name == ls[i].name && IsPass(Rows(ls, os)[i]) == os[i].passed
  {
    forall i | 0 <= i < |os|
      ensures Rows(ls, os)[i].name == ls[i].name && IsPass(Rows(ls, os)[i]) == os[i].passed
    {
      CheckRowOutcome(ls[i].name, os[i].passed, ls[i].successMsg, ls[i].failMsg);
    }
  }

  lemma RowsAppend(ls: seq<Label>, os: seq<CheckOutcome>, k: nat)
    requires |ls| == |os| && k <= |os|
    ensures Rows(ls, os) == Rows(ls[..k], os[..k]) + Rows(ls[k..], os[k..])
  {
  }

  function CountPass(rows: seq<CheckResult>): (n: nat)
    ensures n <= |rows|
  {
    if rows == [] then 0 else (if IsPass(rows[0]) then 1 else 0) + CountPass(rows[1..])
  }

  lemma {:induction false} CountPassOfRows(os: seq<CheckOutcome>, rows: seq<CheckResult>)
    requires |os| == |rows|
    requires forall i :: 0 <= i < |rows| ==> IsPass(rows[i]) == os[i].passed
    ensures CountPass(rows) == PassCount(os)
    decreases |rows|
  {
    if rows != [] {
      CountPassOfRows(os[1..], rows[1..]);
    }
  }

  /**
   * The rows name the six checks in the fixed order, each row's PASS says
   * whether that check passed, and the score is the floor of 100 times the
   * number of PASS rows over six.
   */
  lemma DashboardAgreesWithScore(st: Store, guest: GuestQuery)
    ensures var rows := DashboardRows(Outcomes(st, guest));
            && (forall i :: 0 <= i < |rows| ==> rows[i].name == Labels[i].name)
            && IsPass(rows[0]) == CheckRDPStatus(st).passed
            && IsPass(rows[1]) == CheckSMBv1(st).passed
            && IsPass(rows[2]) == CheckGuestAccount(guest).passed
            && IsPass(rows[3]) == CheckLSAProtection(st).passed
            && IsPass(rows[4]) == CheckAutoLogon(st).passed
            && IsPass(rows[5]) == CheckCredentialGuard(st).passed
            && HardeningScore(st, guest) == ScoreOf(CountPass(rows))
  {
    var os := Outcomes(st, guest);
    RowsAgree(Labels, os);
    CountPassOfRows(os, DashboardRows(os));
  }

  // ---------------------------------------------------------------- filter

  predicate StartsWith(s: string, prefix: string) {
    |prefix| <= |s| && s[..|prefix|] == prefix
  }

  /** The addresses the loopback switch hides. */
  predicate IsLoopbackText(address: string) {
    StartsWith(address, "127.0") || address == "0.0.0.0" || address == "::1"
  }

  /** The list shown for the decoded connections: all of them, or those whose local address is not hidden. */
  function Displayed(conns: seq<NetworkConnection>, hideLoopback: bool): seq<NetworkConnection> {
    if conns == [] then []
    else if hideLoopback && IsLoopbackText(conns[0].localAddress) then Displayed(conns[1..], hideLoopback)
    else [conns[0]] + Displayed(conns[1..], hideLoopback)
  }

  lemma {:induction false} DisplayedAll(conns: seq<NetworkConnection>)
    ensures Displayed(conns, false) == conns
    decreases |conns|
  {
    if conns != [] {
      DisplayedAll(conns[1..]);
    }
  }

  /** A connection is shown exactly when it was decoded and its local address is not hidden. */
  lemma {:induction false} DisplayedMembers(conns: seq<NetworkConnection>, c: NetworkConnection)
    ensures c in Displayed(conns, true) <==> c in conns && !IsLoopbackText(c.localAddress)
    decreases |conns|
  {
    if conns != [] {
      DisplayedMembers(conns[1..], c);
      assert conns == [conns[0]] + conns[1..];
    }
  }

  /** Filtering keeps order: it distributes over concatenation. */
  lemma {:induction false} DisplayedAppend(a: seq<NetworkConnection>, b: seq<NetworkConnection>, hideLoopback: bool)
    ensures Displayed(a + b, hideLoopback) == Displayed(a, hideLoopback) + Displayed(b, hideLoopback)
    decreases |a|
  {
    if a == [] {
      assert a + b == b;
    } else {
      assert (a + b)[0] == a[0];
      assert (a + b)[1..] == a[1..] + b;
      DisplayedAppend(a[1..], b, hideLoopback);
    }
  }

  /**
   * On a decoded IPv4 address the filter hides exactly the addresses whose
   * first octet is 127 and second is 0, and the unspecified address 0.0.0.0;
   * the IPv6 text "::1" never occurs.
   */
  lemma LoopbackAddress(ip: u32)
    ensures IsLoopbackText(IPToString(ip)) <==> (Octets(ip)[0] == 127 && Octets(ip)[1] == 0) || ip == 0
  {
    var o := Octets(ip);
    var x0, x1 := NatToString(o[0]), NatToString(o[1]);
    var rest := "." + (x1 + ("." + (NatToString(o[2]) + ("." + NatToString(o[3])))));
    var s := IPToString(ip);
    assert s == x0 + rest;
    assert s[0] == x0[0];
    NatToString127();
    assert IPToString(0) == "0.0.0.0" by {
      assert NatToString(0) == "0";
    }
    if s == "0.0.0.0" {
      IPToStringInjective(ip, 0);
    }
    if StartsWith(s, "127.0") {
      assert s[|x0|] == '.';
      assert forall k :: 0 <= k < |x0| ==> IsDigit(s[k]);
      assert s[..5] == "127.0";
      assert forall k :: 0 <= k < 3 ==> IsDigit(s[k]);
      assert s[3] == '.';
      assert |x0| == 3;
      assert x0 == s[..3] == "127";
      NatToStringInjective(o[0], 127);
      assert s[4] == x1[0];
    }
    if o[0] == 127 && o[1] == 0 {
      assert x1 == "0";
      assert s[..5] == "127.0";
    }
  }

  // ------------------------------------------------------------- refresh

  /** The entry `GetSystemInfo` logs when gathering threw, given the exception's message. */
  function SystemInfoLog(sysInfoError: Option<string>, clock: string): seq<AuditLogEntry> {
    if sysInfoError.Some? then [AuditLogEntry(clock, "Error gathering System Info: " + sysInfoError.value, "ERROR")]
    else []
  }

  /**
   * The catch block of `GetSystemInfo`: when gathering threw, one ERROR
   * entry with the exception's message; otherwise nothing is logged.
   */
  method GetSystemInfo(sysInfoError: Option<string>, log: AuditLogger)
    modifies log`logs
    ensures log.logs == old(log.logs) + SystemInfoLog(sysInfoError, log.clock)
    ensures |log.logs| == |old(log.logs)| + (if sysInfoError.Some? then 1 else 0)
    ensures sysInfoError.Some? ==> log.logs[|log.logs| - 1].kind == "ERROR"
  {
    if sysInfoError.Some? {
      log.Log("Error gathering System Info: " + sysInfoError.value, "ERROR");
    }
  }

  /** What one dashboard refresh logs: the system-information error, then every check error twice. */
  function RefreshLog(st: Store, guest: GuestQuery, sysInfoError: Option<string>, clock: string): seq<AuditLogEntry> {
    var errors := ErrorsLog(Outcomes(st, guest), clock);
    SystemInfoLog(sysInfoError, clock) + errors + errors
  }

  /**
   * A refresh logs only ERROR entries: none at all on a machine where
   * gathering and every check succeed, and otherwise exactly one entry for
   * the gathering error plus two per check that caught an exception.
   */
  lemma RefreshLogErrors(st: Store, guest: GuestQuery, sysInfoError: Option<string>, clock: string)
    ensures var l := RefreshLog(st, guest, sysInfoError, clock);
            && (forall i :: 0 <= i < |l| ==> l[i].kind == "ERROR")
            && |l| == (if sysInfoError.Some? then 1 else 0) + 2 * ErrorCount(Outcomes(st, guest))
  {
    ErrorsLogFacts(Outcomes(st, guest), clock);
  }

  // ---------------------------------------------------------------- window

  class MainWindow {
    var securityChecks: seq<CheckResult>
    var networkConnections: seq<NetworkConnection>
    var hardeningScore: int
    /** `HideLoopbackCheck.IsChecked`: a tri-state check box, so possibly indeterminate. */
    var hideLoopbackChecked: Option<bool>

    /**
     * The window as its constructor leaves it: the network list empty, and
     * the dashboard filled by the initial `RefreshDashboard`.
     */
    constructor (m: Machine, sysInfoError: Option<string>, hideLoopbackChecked: Option<bool>, log: AuditLogger)
      modifies log`logs
      ensures securityChecks == DashboardRows(Outcomes(m.store, m.guest))
      ensures hardeningScore == HardeningScore(m.store, m.guest)
      ensures networkConnections == []
      ensures this.hideLoopbackChecked == hideLoopbackChecked
      ensures log.logs == old(log.logs) + RefreshLog(m.store, m.guest, sysInfoError, log.clock)
    {
      securityChecks := [];
      networkConnections := [];
      hardeningScore := 0;
      this.hideLoopbackChecked := hideLoopbackChecked;
      new;
      RefreshDashboard(m, sysInfoError, log);
    }

    /** `AddCheck`: appends one row. */
    method AddCheck(name: string, passed: bool, successMsg: string, failMsg: string)
      modifies this`securityChecks
      ensures securityChecks == old(securityChecks) + [CheckRow(name, passed, successMsg, failMsg)]
    {
      securityChecks := securityChecks + [CheckRow(name, passed, successMsg, failMsg)];
    }

    /** Runs one check (logging its error) and shows its row. */
    method ShowCheck(o: CheckOutcome, l: Label, log: AuditLogger)
      modifies this`securityChecks, log`logs
      ensures securityChecks == old(securityChecks) + [LabelledRow(l, o.passed)]
      ensures log.logs == old(log.logs) + ErrorLog(o, log.clock)
    {
      var passed := RunCheck(o, log);
      AddCheck(l.name, passed, l.successMsg, l.failMsg);
    }

    /**
     * The six `AddCheck` calls, in order. The split into two groups of three
     * is not in the source, which makes the six calls in one block; it only
     * keeps each proof small.
     */
    method ShowChecks(os: seq<CheckOutcome>, log: AuditLogger)
      requires |os| == |Labels|
      modifies this`securityChecks, log`logs
      ensures securityChecks == old(securityChecks) + DashboardRows(os)
      ensures log.logs == old(log.logs) + ErrorsLog(os, log.clock)
    {
      var ls := Labels;
      ShowThree(os[..3], ls[..3], log);
      ShowThree(os[3..], ls[3..], log);
      ErrorsLogAppend(os[..3], os[3..], log.clock);
      assert os[..3] + os[3..] == os;
      RowsAppend(ls, os, 3);
    }

    /** Three of the `AddCheck` lines. */
    method ShowThree(t: seq<CheckOutcome>, ls: seq<Label>, log: AuditLogger)
      requires |t| == 3 && |ls| == 3
      modifies this`securityChecks, log`logs
      ensures securityChecks == old(securityChecks) + Rows(ls, t)
      ensures log.logs == old(log.logs) + ErrorsLog(t, log.clock)
    {
      OutcomesOfThree(t, log.clock);
      RowsOfThree(ls, t);
      ShowCheck(t[0], ls[0], log);
      ShowCheck(t[1], ls[1], log);
      ShowCheck(t[2], ls[2], log);
    }

    /**
     * `RefreshDashboard`: gathers the system information (logging its one
     * error), clears the rows, shows the six checks in order, then recomputes
     * the score, which runs all six checks a second time; so every check
     * error is logged twice.
     */
    method RefreshDashboard(m: Machine, sysInfoError: Option<string>, log: AuditLogger)
      modifies this`securityChecks, this`hardeningScore, log`logs
      ensures securityChecks == DashboardRows(Outcomes(m.store, m.guest))
      ensures hardeningScore == HardeningScore(m.store, m.guest)
      ensures log.logs == old(log.logs) + RefreshLog(m.store, m.guest, sysInfoError, log.clock)
    {
      GetSystemInfo(sysInfoError, log);
      ShowDashboard(m, log);
    }

    /** The part of `RefreshDashboard` after the system information: the rows, then the score. */
    method ShowDashboard(m: Machine, log: AuditLogger)
      modifies this`securityChecks, this`hardeningScore, log`logs
      ensures securityChecks == DashboardRows(Outcomes(m.store, m.guest))
      ensures hardeningScore == HardeningScore(m.store, m.guest)
      ensures var errors := ErrorsLog(Outcomes(m.store, m.guest), log.clock);
              log.logs == old(log.logs) + errors + errors
    {
      securityChecks := [];
      ShowChecks(Outcomes(m.store, m.guest), log);
      var score := CalculateHardeningScore(m, log);
      hardeningScore := score;
    }

    /** The `foreach` of `RefreshNetwork_Click`: the list cleared, then each shown connection added. */
    method ShowConnections(conns: seq<NetworkConnection>, hideLoopback: bool)
      modifies this`networkConnections
      ensures networkConnections == Displayed(conns, hideLoopback)
    {
      networkConnections := [];
      for i := 0 to |conns|
        invariant networkConnections == Displayed(conns[..i], hideLoopback)
      {
        var c := conns[i];
        assert conns[..i + 1] == conns[..i] + [c];
        DisplayedAppend(conns[..i], [c], hideLoopback);
        if hideLoopback && IsLoopbackText(c.localAddress) {
          continue;
        }
        networkConnections := networkConnections + [c];
      }
      assert conns[..|conns|] == conns;
    }

    /**
     * `RefreshNetwork_Click`: fetches the connections and shows them,
     * hiding loopback addresses while the check box is ticked or
     * indeterminate.
     */
    method RefreshNetwork(status: u32, buf: seq<byte>, processes: map<int, string>, log: AuditLogger)
      modifies this`networkConnections, log`logs
      ensures var fetched := Fetch(status, buf, processes);
              && networkConnections == Displayed(fetched.connections, hideLoopbackChecked != Some(false))
              && log.logs == old(log.logs)
                             + if fetched.faulted
                               then [AuditLogEntry(log.clock, "Error fetching network connections: " + FaultMessage, "ERROR")]
                               else []
    {
      var conns := GetNetworkConnections(status, buf, processes, log);
      var hideLoopback := if hideLoopbackChecked.Some? then hideLoopbackChecked.value else true;
      ShowConnections(conns, hideLoopback);
    }
  }
}
