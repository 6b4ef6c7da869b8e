/**
 * The six posture checks of the security engine. Each reads the
 * configuration store (or, for the Guest account, the answer of an
 * administrative query) and yields whether the machine passes, together
 * with the text of the ERROR entry the check logs when it catches an
 * exception. Five checks are fail-closed: a missing entry or an exception
 * reads as "fails". The auto-logon check is fail-open: a missing entry and
 * an exception both read as "passes".
 */
module Checks {
  import opened Wrappers
  import opened Decimal
  import opened Ascii
  import opened Registry

  const ControlPath := @"SYSTEM\CurrentControlSet\Control\"
  const TerminalServerKey := KeyPath(LocalMachine, ControlPath + "Terminal Server")
  const LanmanServerKey := KeyPath(LocalMachine, @"SYSTEM\CurrentControlSet\Services\LanmanServer\Parameters")
  /** Where RunAsPPL is read and written. */
  const LsaKey := KeyPath(LocalMachine, ControlPath + "Lsa")
  /** Where the credential-guard check reads LsaCfgFlags: the same key, spelled in upper case. */
  const LsaIsoKey := KeyPath(LocalMachine, ControlPath + "LSA")
  const WinlogonKey := KeyPath(LocalMachine, @"SOFTWARE\Microsoft\Windows NT\CurrentVersion\Winlogon")
  const CredentialGuardKey := KeyPath(LocalMachine, ControlPath + @"DeviceGuard\Scenarios\CredentialGuard")

  /** Message of the InvalidCastException thrown by `(int)val` on a string value. */
  const CastToInt32Message := "Unable to cast object of type 'System.String' to type 'System.Int32'."

  /** passed: the check's boolean result; error: the message it logs at ERROR level, if any. */
  datatype CheckOutcome = CheckOutcome(passed: bool, error: Option<string>)

  /** A read that throws inside the check: the key cannot be opened, or `(int)val` meets a string. */
  predicate Throws(l: Lookup) {
    l.KeyDenied? || (l.Found? && l.value.Str?)
  }

  /** `return val != null && (int)val is accepted;` inside `if (key != null)`, wrapped in the check's try/catch. */
  function DWordFlag(l: Lookup, accepted: set<int>, prefix: string): CheckOutcome {
    match l
    case KeyDenied(msg) => CheckOutcome(false, Some(prefix + msg))
    case KeyMissing => CheckOutcome(false, None)
    case ValueMissing => CheckOutcome(false, None)
    case Found(v) =>
      match v
      case DWord(n) => CheckOutcome(n in accepted, None)
      case Str(_) => CheckOutcome(false, Some(prefix + CastToInt32Message))
  }

  /** Remote desktop is secure only when fDenyTSConnections is the DWORD 1. */
  function CheckRDPStatus(st: Store): (r: CheckOutcome)
    ensures r.passed <==> Read(st, TerminalServerKey, "fDenyTSConnections") == Found(DWord(1))
    ensures r.error.Some? <==> Throws(Read(st, TerminalServerKey, "fDenyTSConnections"))
  {
    DWordFlag(Read(st, TerminalServerKey, "fDenyTSConnections"), {1}, "Error checking RDP: ")
  }

  /** SMBv1 is secure only when SMB1 is the DWORD 0. */
  function CheckSMBv1(st: Store): (r: CheckOutcome)
    ensures r.passed <==> Read(st, LanmanServerKey, "SMB1") == Found(DWord(0))
    ensures r.error.Some? <==> Throws(Read(st, LanmanServerKey, "SMB1"))
  {
    DWordFlag(Read(st, LanmanServerKey, "SMB1"), {0}, "Error checking SMBv1: ")
  }

  /** LSA protection is on only when RunAsPPL is the DWORD 1. */
  function CheckLSAProtection(st: Store): (r: CheckOutcome)
    ensures r.passed <==> Read(st, LsaKey, "RunAsPPL") == Found(DWord(1))
    ensures r.error.Some? <==> Throws(Read(st, LsaKey, "RunAsPPL"))
  {
    DWordFlag(Read(st, LsaKey, "RunAsPPL"), {1}, "Error checking LSA: ")
  }

  /**
   * Auto-logon fails only when AutoAdminLogon is present and prints as "1"
   * (the DWORD 1 or the string "1"); a missing key, a missing value and an
   * exception all pass.
   */
  function CheckAutoLogon(st: Store): (r: CheckOutcome)
    ensures !r.passed <==> Read(st, WinlogonKey, "AutoAdminLogon") in {Found(DWord(1)), Found(Str("1"))}
    ensures r.error.Some? <==> Read(st, WinlogonKey, "AutoAdminLogon").KeyDenied?
  {
    match Read(st, WinlogonKey, "AutoAdminLogon")
    case KeyDenied(msg) => CheckOutcome(true, Some("Error checking AutoLogon: " + msg))
    case KeyMissing => CheckOutcome(true, None)
    case ValueMissing => CheckOutcome(true, None)
    case Found(v) =>
      match v
      case DWord(n) => IntToStringIsOne(n); CheckOutcome(ValueText(v) != "1", None)
      case Str(_) => CheckOutcome(ValueText(v) != "1", None)
  }

  /**
   * When the CredentialGuard scenario key exists (or cannot be opened) its
   * `Enabled` value alone decides; only when it is absent is LsaCfgFlags
   * consulted, and then 1 and 2 pass.
   */
  function CheckCredentialGuard(st: Store): (r: CheckOutcome)
    ensures var scenario := Read(st, CredentialGuardKey, "Enabled");
            var iso := Read(st, LsaIsoKey, "LsaCfgFlags");
            && (r.passed <==>
                  (scenario == Found(DWord(1)) ||
                   (scenario == KeyMissing && iso in {Found(DWord(1)), Found(DWord(2))})))
            && (r.error.Some? <==> Throws(scenario) || (scenario == KeyMissing && Throws(iso)))
  {
    var prefix := "Error checking Credential Guard: ";
    match Read(st, CredentialGuardKey, "Enabled")
    case KeyMissing => DWordFlag(Read(st, LsaIsoKey, "LsaCfgFlags"), {1, 2}, prefix)
    case scenario => DWordFlag(scenario, {1}, prefix)
  }

  /** Whatever LsaCfgFlags holds, it is not consulted while the scenario key exists. */
  lemma CredentialGuardShortCircuit(st1: Store, st2: Store)
    requires Read(st1, CredentialGuardKey, "Enabled") == Read(st2, CredentialGuardKey, "Enabled")
    requires Read(st1, CredentialGuardKey, "Enabled") != KeyMissing
    ensures CheckCredentialGuard(st1) == CheckCredentialGuard(st2)
  {
  }

  /** One element of the result of `ps.Invoke()`. */
  datatype PSObject = PSNull | PSBool(b: bool) | PSOther(typeName: string)

  /** Running `Get-LocalUser -Name 'Guest' | Select-Object -ExpandProperty Enabled`. */
  datatype GuestQuery = Invoked(hadErrors: bool, results: seq<PSObject>) | InvokeThrew(message: string)

  /** The Guest account is secure only when the query ran cleanly and its first result is `false`. */
  function CheckGuestAccount(q: GuestQuery): (r: CheckOutcome)
    ensures r.passed <==> q.Invoked? && !q.hadErrors && |q.results| > 0 && q.results[0] == PSBool(false)
    ensures r.error.Some? <==> q.InvokeThrew? || (q.Invoked? && !q.hadErrors && |q.results| > 0 && q.results[0].PSOther?)
  {
    var prefix := "Error checking Guest Account: ";
    match q
    case InvokeThrew(msg) => CheckOutcome(false, Some(prefix + msg))
    case Invoked(hadErrors, results) =>
      if hadErrors then CheckOutcome(false, None)
      else if |results| > 0 && results[0] != PSNull then
        match results[0]
        case PSBool(enabled) => CheckOutcome(!enabled, None)
        case PSOther(t) =>
          CheckOutcome(false, Some(prefix + "Unable to cast object of type '" + t + "' to type 'System.Boolean'."))
      else CheckOutcome(false, None)
  }

  /** The two spellings of the LSA key name one registry key. */
  lemma LsaKeysAlias()
    ensures Canonical(LsaKey) == Canonical(LsaIsoKey)
  {
    var a, b := LsaKey.path, LsaIsoKey.path;
    assert |a| == |b|;
    forall i | 0 <= i < |a|
      ensures Lower(a[i]) == Lower(b[i])
    {
      if i < |ControlPath| {
        assert a[i] == ControlPath[i] == b[i];
      }
    }
    assert Fold(a) == Fold(b);
  }
}
