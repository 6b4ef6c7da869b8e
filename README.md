# Sentinel-Secure core, modelled in Dafny

Sentinel-Secure is a Windows security-hardening tool. It has a WPF desktop
window (ModernWpf controls) and a small web dashboard. This project models and proves the tool's core:

**The security checks** (`SecurityEngine.cs`). These are:
- remote desktop denied;
- SMBv1 off;
- the guest account disabled;
- LSA protection on;
- automatic logon off;
- Credential Guard on.

Each check reads the registry or runs a PowerShell query. The checks are
functions over a registry `Store` and a `GuestQuery`. In the store a key may
refuse to be opened, or may open fine and refuse writes. A registry exception
(an unreadable key, or a cast of a string value to `int`) becomes an
`error` message that the caller logs, and the check then fails. Automatic
logon is the exception. It compares the value as text, so it cannot fail a
cast, and it passes even when its key cannot be read.

**The hardening score.** The score is the percentage of the six checks that
pass, rounded down. The model proves the seven possible values, that the
score is monotone in the number of passing checks, and the score of an
empty registry.

**The field-compliance audit**, with its issue texts:
- screen-saver password;
- lock timeout at most 900 seconds;
- USB write protection.

Also modelled: the catch block that appends "Error running field compliance
checks.".

**The hardening baseline.** It writes three registry values in order, each
write logged as SUCCESS or ERROR, then disables the guest account. The
model proves four things:
- the three writes are independent of each other;
- each makes its check pass when its key takes the write, and leaves the check as it was when the write throws;
- they leave the other checks alone;
- the baseline is idempotent.

**The TCP connection table**, as returned by `GetExtendedTcpTable`, modelled
as a byte buffer:
- a 4-byte little-endian row count, then 24-byte rows of six 32-bit fields;
- ports in network byte order in the first two bytes of their field;
- addresses printed as dotted quads;
- states 1..12 named, any other value printed as a signed number;
- the owning PID mapped to a process name, or "Unknown".

`DecodeTable` checks the status and the header, and `DecodeRows` walks the
rows with a loop, as the `for` loop of `GetNetworkConnections` does. The loop
takes the record it builds from each row as a parameter: `DecodeTable` passes
`ConnectionOf(processes)`, which fills every field of a `NetworkConnection`
from the row. Both methods are proved against the `Fetch` function. Decoding
is also proved against an encoder: any well-formed table decodes back to
exactly the connections of its rows. The address, port, state and integer
printers are proved injective.

**The audit logger** (`AuditLogger.cs`). It is a class whose log is a
sequence that `Log` appends to. The time stamp is the `clock` field.

**The main window** (`MainWindow.xaml.cs`):
- `AddCheck` builds the dashboard rows.
- `RefreshDashboard` gathers the system information, whose one possible error is logged, then fills the six rows in display order and sets the score. The model proves that the score equals the score of the PASS rows. Running the checks twice logs each check error twice. The constructor ends with one such refresh.
- `RefreshNetwork_Click` shows the connections. It hides the loopback ones while the check box is ticked or indeterminate.

The loopback test works on text: it is `StartsWith("127.0")`, `"0.0.0.0"` or `"::1"`. The model proves this is exactly the addresses `127.0.x.y` and `0.0.0.0`.

**The web dashboard** (`Dashboard/app.js`):
- `formatRelativeTime`, with its minute, hour and day buckets in closed form;
- the resource-bar thresholds: exactly one of `warning`/`critical`, or neither;
- the critical and warning alert counts, case-insensitive, equal to the size of the set of matching indices;
- `setButtonLoading`: it saves and restores the HTML, including the edge case of empty HTML, which is falsy and therefore never restored;
- `openModal` and `closeModal` on a map of flags.

`closeModal` sets the flag of the modal it closes to `true`, exactly as
`openModal` does, and the model keeps that behaviour. `FlagsOnlyRise` proves
the consequence: no sequence of opens and closes ever clears a flag.

Two behaviours of the code are kept as written:
- Automatic logon is fail-open: its catch block returns `true` (`SecurityEngine.cs:147`), so a failed registry read counts as secure.
- An out-of-range TCP state prints as the signed number it holds, which is what `((TcpState)row.state).ToString()` does (`SecurityEngine.cs:381`).

Modules:
- `Wrappers` and `Decimal`: integer printing and `int.TryParse`.
- `Ascii`: the case folding used for registry names and alert levels.
- `Registry`.
- `Checks`.
- `AuditLog`.
- `Hardening`: the score, the baseline and the field audit.
- `TcpTable`.
- `MainWindow`.
- `Dashboard`.

## Model

| member | source | states |
|---|---|---|
| Decimal.NatToString | SecurityEngine.cs:284 | decimal text of a natural: non-empty digits, a leading '0' only for zero, one digit exactly below 10, at most three digits exactly below 1000 |
| Decimal.IntToString | SecurityEngine.cs:284 | text of an integer: ends in a digit, starts with '-' exactly for negatives, all digits otherwise |
| Decimal.DigitsValueOfNatToString | SecurityEngine.cs:284 | reading the printed digits back gives the number |
| Decimal.NatToStringInjective | SecurityEngine.cs:284 | different naturals print differently |
| Decimal.IntToStringInjective | SecurityEngine.cs:284 | different integers print differently |
| Decimal.IntToStringIsOne | SecurityEngine.cs:279 | a DWORD prints as "1" exactly when it is 1, so the `ToString() != "1"` test agrees with the integer test |
| Decimal.TryParseIntToString | SecurityEngine.cs:282 | `int.TryParse` accepts the printed text of every 32-bit integer and returns it |
| Decimal.NatToString127 | MainWindow.xaml.cs:137 | 127 prints as "127" |
| Ascii.Fold | SecurityEngine.cs:62 | a folded name has the same length, holds no ASCII capital, and keeps every character that is not a capital |
| Ascii.FoldIdempotent | SecurityEngine.cs:62 | folding a folded name changes nothing |
| Ascii.FoldEqualIff | SecurityEngine.cs:62 | two names are the same registry name exactly when they have the same length and differ at most in the case of ASCII letters |
| Registry.SetValueFails | SecurityEngine.cs:318 | `Registry.SetValue` throws exactly when the key cannot be opened or refuses writes, so always when reading it throws; a write never changes which keys refuse |
| Registry.ReadAfterWrite | SecurityEngine.cs:318 | after a write, the value reads as written when the key took the write, and as before when the write threw |
| Registry.WriteFrame | SecurityEngine.cs:318 | a write leaves every other key and every other value name reading as before, except that a missing key the write created makes its other values read as missing values |
| Registry.WriteExisting | SecurityEngine.cs:318 | writing a value the key already holds leaves the registry unchanged |
| Checks.CheckRDPStatus | SecurityEngine.cs:58-73 | passes exactly when fDenyTSConnections reads as DWORD 1; errs exactly when the key cannot be opened or the value is a string |
| Checks.CheckSMBv1 | SecurityEngine.cs:75-90 | passes exactly when SMB1 reads as DWORD 0; errs exactly when the read throws |
| Checks.CheckGuestAccount | SecurityEngine.cs:92-112 | passes exactly when the query ran without errors and its first result is boolean false; errs exactly when the invocation threw, or the query ran without errors and its first result is neither null nor a boolean; a null first result fails without an error |
| Checks.CheckLSAProtection | SecurityEngine.cs:114-129 | passes exactly when RunAsPPL reads as DWORD 1; errs exactly when the read throws |
| Checks.CheckAutoLogon | SecurityEngine.cs:131-148 | fails exactly when AutoAdminLogon holds 1 as a DWORD or as the string "1"; a key that cannot be opened is logged and passes |
| Checks.CheckCredentialGuard | SecurityEngine.cs:169-194 | passes when the scenario flag is DWORD 1 or, with the scenario key missing, LsaCfgFlags is 1 or 2; errs exactly when a read that is reached throws |
| Checks.CredentialGuardShortCircuit | SecurityEngine.cs:173-180 | when the scenario key exists, LsaCfgFlags is never consulted |
| Checks.LsaKeysAlias | SecurityEngine.cs:182 | the LSA path written with different letter case names the same key as the LsaCfgFlags path |
| AuditLog.AuditLogger.constructor | AuditLogger.cs:17 | the log starts empty |
| AuditLog.AuditLogger.Log | AuditLogger.cs:25-36 | appends exactly one entry, with the clock's time stamp, the message and the kind (INFO by default), and keeps every earlier entry |
| Hardening.Machine.constructor | SecurityEngine.cs:62 | a machine holds the registry and the guest-account query |
| Hardening.PassCount | SecurityEngine.cs:257-263 | at most as many passing checks as checks |
| Hardening.ScoreValues | SecurityEngine.cs:265 | the truncated percentage is one of 0, 16, 33, 50, 66, 83, 100; 100 exactly when all six pass; 0 exactly when none pass |
| Hardening.ScoreMonotone | SecurityEngine.cs:265 | more passing checks never lower the score |
| Hardening.PassCountOfSix | SecurityEngine.cs:257-263 | the number passing is the sum over the six checks |
| Hardening.EmptyStoreScore | SecurityEngine.cs:253-266 | on an empty registry only automatic logon (and possibly the guest check) passes, so the score is 16 or 33 |
| Hardening.RunCheck | SecurityEngine.cs:71 | running a check returns its verdict and logs its error, if any, at ERROR level |
| Hardening.PassCountAppend | SecurityEngine.cs:257-263 | the passing checks of two runs taken one after the other add up |
| Hardening.ErrorsLogAppend | SecurityEngine.cs:257-263 | the error entries of two runs taken one after the other follow each other in order |
| Hardening.ErrorsLogFacts | SecurityEngine.cs:257-263 | the checks log one ERROR entry per check that caught an exception, and nothing else |
| Hardening.OutcomesOfThree | SecurityEngine.cs:257-263 | three checks pass and log one by one: the count is the sum of the three verdicts and the entries are their errors in order |
| Hardening.CalculateHardeningScore | SecurityEngine.cs:253-266 | returns the score of the six checks, and logs each check's error in check order |
| Hardening.RunSix | SecurityEngine.cs:257-263 | counts the passing checks among six, logging their errors in order |
| Hardening.RunThree | SecurityEngine.cs:257-263 | counts the passing checks among three, logging their errors in order |
| Hardening.WriteAction | SecurityEngine.cs:316-321 | one baseline step: the registry after the write, and one SUCCESS or ERROR entry |
| Hardening.ApplyHardeningBaseline | SecurityEngine.cs:311-353 | the registry after the three writes, the guest account as the script left it, and the six log entries in order |
| Hardening.DisableGuest | SecurityEngine.cs:339-350 | after a clean script run the guest query answers that the account is disabled; after a run with errors or a thrown exception it is left as it was; exactly one entry is logged, SUCCESS for a clean run and ERROR otherwise |
| Hardening.BaselineKeysDistinct | SecurityEngine.cs:318-334 | the keys the baseline writes are distinct from each other and from the Winlogon and Credential Guard scenario keys; the LSA key of the Credential Guard fallback is the baseline's LSA key, and is distinct only from the RDP and SMBv1 keys |
| Hardening.BaselineFrame | SecurityEngine.cs:311-353 | values under keys the baseline does not write, and other names under the keys it writes, read as before, except that a missing key the baseline could write to now exists, so its other values read as missing values |
| Hardening.BaselineWrites | SecurityEngine.cs:316-337 | after the baseline, each written value reads as written when its key took the write, and as before when the write threw; which keys refuse is unchanged |
| Hardening.BaselineMakesChecksPass | SecurityEngine.cs:311-353 | after the baseline, each of the RDP, SMBv1 and LSA checks passes with no error when its key took the write, and otherwise reports exactly what it reported before, so it passes exactly when the write went through or it already passed; the guest check passes after a clean script run and is unchanged otherwise |
| Hardening.BaselineKeepsOtherChecks | SecurityEngine.cs:311-353 | the baseline changes neither the automatic-logon nor the Credential Guard verdict |
| Hardening.BaselineIdempotent | SecurityEngine.cs:311-353 | applying the baseline twice leaves the same registry and guest state as once |
| Hardening.BaselineLogShape | SecurityEngine.cs:311-353 | six entries: start, one SUCCESS or ERROR entry per action, then done; the guest entry is SUCCESS exactly for a clean script run |
| Hardening.BaselineLogOutcomes | SecurityEngine.cs:316-337 | each registry action's entry is SUCCESS exactly when its own key takes the write, whatever happened to the earlier actions |
| Hardening.WriteEntryKind | SecurityEngine.cs:316-321 | one action's entry is SUCCESS when its key took the write and ERROR otherwise |
| Hardening.StorageRules | SecurityEngine.cs:291-299 | adds no USB issue exactly when WriteProtect is DWORD 1 or the cast throws; the cast throws exactly for a string value |
| Hardening.ScanDesktop | SecurityEngine.cs:274-288 | the Desktop issues in rule order, at most two |
| Hardening.DesktopIssuesEmpty | SecurityEngine.cs:274-288 | the Desktop rules find nothing exactly when the screen saver is secure (DWORD 1 or the string "1") and the timeout is present, parses, and is at most 900 seconds |
| Hardening.AuditFieldCompliance | SecurityEngine.cs:268-307 | the issues of the audit, and one ERROR entry exactly when it caught an exception |
| Hardening.FieldCompliantIff | SecurityEngine.cs:268-307 | no issue exactly when the Desktop key is missing or has a password-protected screen saver and a parsable timeout of at most 900 seconds, and WriteProtect is DWORD 1 |
| Hardening.FieldErrorIff | SecurityEngine.cs:301-305 | the audit errs exactly when the Desktop key cannot be opened or the storage read throws, and then its last issue is the error issue; at most three issues |
| Hardening.DWordTimeoutIsSet | SecurityEngine.cs:281-286 | a DWORD timeout is always set, and is reported too long exactly above 900 seconds |
| Hardening.TimeoutIssueDistinct | SecurityEngine.cs:277-286 | the too-long message differs from the unset-timeout and screen-saver messages |
| TcpTable.EncodeU32 | SecurityEngine.cs:368 | a 32-bit value is four bytes |
| TcpTable.U32RoundTrip | SecurityEngine.cs:368 | reading the little-endian bytes of a value gives the value |
| TcpTable.BytesRoundTrip | SecurityEngine.cs:368 | the bytes of a value read from a buffer are the buffer's bytes |
| TcpTable.ToInt32 | SecurityEngine.cs:382-383 | the `(int)` cast keeps the value modulo 2^32 and is non-negative exactly below 2^31 |
| TcpTable.ToInt32Injective | SecurityEngine.cs:382-383 | different PIDs cast to different integers |
| TcpTable.PortToHostOrder | SecurityEngine.cs:407-410 | the port is in 0..65535 |
| TcpTable.PortRoundTrip | SecurityEngine.cs:407-410 | a port in network byte order reads back as itself |
| TcpTable.PortInjective | SecurityEngine.cs:407-410 | two port fields read the same exactly when their first two bytes agree; the last two are ignored |
| TcpTable.PortExample | SecurityEngine.cs:407-410 | bytes 00 50 read as port 80, bytes 01 BB as 443 |
| TcpTable.Octets | SecurityEngine.cs:402-405 | an address is four octets |
| TcpTable.SplitAtDot | SecurityEngine.cs:402-405 | the dot after a run of digits splits the dotted text in one way only |
| TcpTable.DottedInjective | SecurityEngine.cs:402-405 | different octets print as different dotted quads |
| TcpTable.IPToStringInjective | SecurityEngine.cs:402-405 | different addresses print differently |
| TcpTable.IPToStringOfBuffer | SecurityEngine.cs:402-405 | an address read from the table prints its bytes in memory order |
| TcpTable.StateValue | SecurityEngine.cs:424-438 | every state's number is in 1..12 |
| TcpTable.StateOf | SecurityEngine.cs:424-438 | a number names a state exactly when it is in 1..12, and names the state with that number |
| TcpTable.Name | SecurityEngine.cs:424-438 | a state's name is not empty and starts with neither a digit nor '-' |
| TcpTable.NameInjective | SecurityEngine.cs:424-438 | different states have different names |
| TcpTable.StateText | SecurityEngine.cs:381 | 1..12 shows the state's name; any other value shows the signed number it holds |
| TcpTable.StateTextInjective | SecurityEngine.cs:381 | different state values show differently |
| TcpTable.StateTextExamples | SecurityEngine.cs:381 | 5 shows "Established", 0 shows "0", 0xFFFFFFFF shows "-1" |
| TcpTable.ParseRow | SecurityEngine.cs:24-35 | a row read from the buffer is well formed |
| TcpTable.EncodeRow | SecurityEngine.cs:24-35 | a row is 24 bytes |
| TcpTable.ParseRowLocal | SecurityEngine.cs:373 | a row depends on its own 24 bytes only |
| TcpTable.ParseEncodeRow | SecurityEngine.cs:24-35 | reading an encoded row gives the row |
| TcpTable.Connection | SecurityEngine.cs:375-384 | each field of the connection: ports in host order, dotted addresses, state text, the signed PID and its process name |
| TcpTable.TableRows | SecurityEngine.cs:371-373 | n rows, each of them well formed |
| TcpTable.TableRowsAt | SecurityEngine.cs:369-373 | row i of the table is the row read at offset 4 + 24·i |
| TcpTable.MapRows | SecurityEngine.cs:371-387 | one record per row |
| TcpTable.MapRowsSnoc | SecurityEngine.cs:375-384 | one more row adds its record at the end |
| TcpTable.MapRowsAt | SecurityEngine.cs:371-387 | record i is made from row i |
| TcpTable.ConnectionOf | SecurityEngine.cs:375-384 | the record builder accepts every well-formed row |
| TcpTable.Connections | SecurityEngine.cs:371-387 | n rows give n connections |
| TcpTable.ConnectionsAt | SecurityEngine.cs:375-384 | connection i is the connection of row i |
| TcpTable.FetchShape | SecurityEngine.cs:357-400 | a failed call gives nothing; otherwise the connections are the table's rows in order, all of them when they fit in the buffer, else those before the fault |
| TcpTable.FetchEmpty | SecurityEngine.cs:366-371 | an empty table gives no connections and no fault |
| TcpTable.EncodeTable | SecurityEngine.cs:37-43 | an encoded table is the header and its rows, padded to the table structure's size when empty |
| TcpTable.EncodeRows | SecurityEngine.cs:37-43 | 24 bytes per row |
| TcpTable.EncodeRowsAt | SecurityEngine.cs:369-373 | row i sits at offset 24·i |
| TcpTable.EncodedTableHeader | SecurityEngine.cs:368 | an encoded table's header holds its row count |
| TcpTable.EncodedTableRow | SecurityEngine.cs:371-373 | reading row i of an encoded table gives the i-th row |
| TcpTable.EncodedTableRows | SecurityEngine.cs:369-373 | the rows read back from an encoded table are the rows it was built from |
| TcpTable.FetchEncodedTable | SecurityEngine.cs:357-400 | decoding an encoded table gives exactly the connections of its rows, in order, with no fault |
| TcpTable.RowsThatFit | SecurityEngine.cs:371-373 | the rows that fit before the end of the buffer |
| TcpTable.DecodeStep | SecurityEngine.cs:373-386 | decoding one more row appends its record to the records decoded so far |
| TcpTable.DecodeRows | SecurityEngine.cs:371-387 | the loop yields the records of all counted rows when they fit in the buffer, and otherwise those of the rows that fit, with the fault flag set |
| TcpTable.DecodeTable | SecurityEngine.cs:366-388 | a non-zero status gives nothing, a buffer shorter than the table structure faults at once, and otherwise the rows are decoded: in every case the fetch function |
| TcpTable.GetNetworkConnections | SecurityEngine.cs:357-400 | returns the fetched connections, and logs one ERROR entry exactly when reading the table faulted |
| MainWindow.CheckRowOutcome | MainWindow.xaml.cs:72-81 | a row shows PASS, the success text and the safe colour exactly when the check passed |
| MainWindow.DashboardRows | MainWindow.xaml.cs:59-65 | six rows, one per check |
| MainWindow.Rows | MainWindow.xaml.cs:59-65 | one row per check |
| MainWindow.RowsOfThree | MainWindow.xaml.cs:59-65 | three checks give their three labelled rows in order |
| MainWindow.RowsAppend | MainWindow.xaml.cs:59-65 | the rows of a split list are the rows of its two parts, in order |
| MainWindow.RowsAgree | MainWindow.xaml.cs:72-81 | row i carries label i and shows PASS exactly when check i passed |
| MainWindow.CountPass | MainWindow.xaml.cs:68 | at most as many PASS rows as rows |
| MainWindow.CountPassOfRows | MainWindow.xaml.cs:68 | rows that agree with the checks have as many PASS rows as checks passing |
| MainWindow.DashboardAgreesWithScore | MainWindow.xaml.cs:59-68 | each row's name follows the display order, each row passes exactly when its check passes, and the score is the score of the PASS rows |
| MainWindow.DisplayedAll | MainWindow.xaml.cs:133-141 | with the filter off every connection is shown |
| MainWindow.DisplayedMembers | MainWindow.xaml.cs:137 | with the filter on a connection is shown exactly when it is fetched and its local address is not loopback |
| MainWindow.DisplayedAppend | MainWindow.xaml.cs:135-141 | the filter keeps the order of the connections |
| MainWindow.LoopbackAddress | MainWindow.xaml.cs:137 | a printed IPv4 address is hidden exactly when its octets start 127.0, or it is 0.0.0.0 |
| MainWindow.GetSystemInfo | SecurityEngine.cs:246-249 | one ERROR entry with the exception's message exactly when gathering threw, and nothing otherwise |
| MainWindow.RefreshLogErrors | MainWindow.xaml.cs:52-70 | a refresh logs only ERROR entries: one for a gathering error plus two for each check that caught an exception |
| MainWindow.MainWindow.constructor | MainWindow.xaml.cs:30-40 | a new window shows the six rows and the score of the machine, its network list is empty, and it has logged what one refresh logs |
| MainWindow.MainWindow.AddCheck | MainWindow.xaml.cs:72-81 | appends exactly the row for the check |
| MainWindow.MainWindow.ShowCheck | MainWindow.xaml.cs:59-65 | one dashboard line: the check's row, and its error logged |
| MainWindow.MainWindow.ShowChecks | MainWindow.xaml.cs:59-65 | the six rows appended in order, and the checks' errors logged in order |
| MainWindow.MainWindow.ShowThree | MainWindow.xaml.cs:59-65 | three rows appended in order, and their checks' errors logged in order |
| MainWindow.MainWindow.RefreshDashboard | MainWindow.xaml.cs:52-70 | the dashboard shows exactly the six rows and the score; the log gains the gathering error, if any, then each check error twice |
| MainWindow.MainWindow.ShowDashboard | MainWindow.xaml.cs:58-68 | the six rows and the score, with each check error logged twice |
| MainWindow.MainWindow.ShowConnections | MainWindow.xaml.cs:134-141 | the list is exactly the connections that pass the filter, in order |
| MainWindow.MainWindow.RefreshNetwork | MainWindow.xaml.cs:127-145 | the list is the fetched connections filtered while the box is ticked or indeterminate; a fault is logged |
| Dashboard.MinutesOfMillis | Dashboard/app.js:50-51 | seconds, then minutes, is whole minutes of the difference |
| Dashboard.HoursOfMillis | Dashboard/app.js:51-52 | minutes, then hours, is whole hours |
| Dashboard.DaysOfMillis | Dashboard/app.js:52-53 | hours, then days, is whole days |
| Dashboard.RelativeTimeBuckets | Dashboard/app.js:47-60 | under a minute gives "just now", then whole minutes under an hour, whole hours under a day, whole days |
| Dashboard.RelativeTimeFuture | Dashboard/app.js:56 | a date in the future or under a minute old reads "just now" |
| Dashboard.RelativeTimeExamples | Dashboard/app.js:48-60 | concrete readings at the bucket edges, and "NaNd ago" for an unparsable date |
| Dashboard.DefaultThresholdsOrdered | Dashboard/app.js:28-32 | for each resource the warning threshold is positive and below the critical one, which is at most 100 |
| Dashboard.BarClassesIff | Dashboard/app.js:236-249 | the bar is critical exactly at or above the critical threshold, warning exactly between the thresholds, never both, and keeps its other classes |
| Dashboard.BarLevelMonotone | Dashboard/app.js:245-247 | a higher percentage never gives a lower level |
| Dashboard.ProgressBar.constructor | Dashboard/app.js:236-249 | a bar starts with the given classes |
| Dashboard.UpdateResourceCard | Dashboard/app.js:236-249 | a present bar gets the percentage as width and the level's class |
| Dashboard.CountLevel | Dashboard/app.js:207 | at most as many matching alerts as alerts |
| Dashboard.CountLevelIsCardinality | Dashboard/app.js:207 | the count is the number of alerts whose level, lower-cased, is the target |
| Dashboard.CountsBounded | Dashboard/app.js:207-212 | critical and warning alerts together never outnumber the alerts |
| Dashboard.CountExample | Dashboard/app.js:207-212 | "CRITICAL", "Warning", none and "critical" count two critical and one warning |
| Dashboard.LoadingSavesOnce | Dashboard/app.js:323-326 | loading twice keeps the first saved HTML, except that an empty saved copy is falsy and is overwritten |
| Dashboard.LoadingRoundTrip | Dashboard/app.js:321-335 | loading then finishing restores the original HTML, clears the copy and re-enables the button |
| Dashboard.FinishWithoutSaved | Dashboard/app.js:327-334 | finishing with no saved copy only drops the loading class and re-enables the button |
| Dashboard.Button.constructor | Dashboard/app.js:321 | a button starts enabled with no saved copy |
| Dashboard.SetButtonLoading | Dashboard/app.js:321-335 | a present button changes as the loading function says; a missing one is untouched |
| Dashboard.IndexOfFrom | Dashboard/app.js:103 | the first occurrence of the pattern from a position, or none |
| Dashboard.IndexOfFirst | Dashboard/app.js:103 | a match before which the pattern's first letter does not occur is the first occurrence |
| Dashboard.ModalKeyCut | Dashboard/app.js:103 | the key is the id with its first "Modal" cut out, or the id itself when it has none |
| Dashboard.ModalKeyOfName | Dashboard/app.js:103 | an id that is a name without a capital M followed by "Modal" has that name as its key |
| Dashboard.ModalKeyAddUsers | Dashboard/app.js:103 | "addUsersModal" maps to the flag "addUsers" |
| Dashboard.ModalKeyBackup | Dashboard/app.js:103 | "backupModal" maps to the flag "backup" |
| Dashboard.ModalKeyProgress | Dashboard/app.js:103 | "progressModal" maps to the flag "progress" |
| Dashboard.ModalState.constructor | Dashboard/app.js:33-37 | the three flags start false and no modal is shown |
| Dashboard.ModalState.OpenModal | Dashboard/app.js:99-106 | a known modal is shown, its flag set and the page scroll locked; an unknown id changes nothing |
| Dashboard.ModalState.CloseModal | Dashboard/app.js:108-115 | a known modal is hidden and the scroll unlocked, and its flag is set to true; an unknown id changes nothing |
| Dashboard.FlagsOnlyRise | Dashboard/app.js:99-115 | no sequence of opens and closes clears a flag, and any known modal opened or closed ends with its flag true |

## Left out

- CheckPowerShellExecutionPolicy: it runs PowerShell and is not shown on the dashboard; it is not part of this model.
- MainWindow.GetSystemInfo models only the catch block of `GetSystemInfo`: its input is the caught exception's message, if any. The values gathered are shown but never checked, so the `SystemInfo` record is not modelled. They are the product name and build from the registry, and the BIOS serial, TPM presence and BitLocker status from three PowerShell queries.
- FixDisplayResolution is not part of this model. It opens `GraphicsDrivers\Configuration` and `GraphicsDrivers\Connectivity` for writing and deletes every subkey tree under each. It logs an INFO entry on starting, SUCCESS for each of the two keys that exists (whether or not it had subkeys), then a WARN asking for a restart, or ERROR on an exception. It is an emergency display repair that no check, score or baseline reads, and the store here has no subkeys.
- `GetExtendedTcpTable` is a parameter: its status and the buffer it filled. The first call, which only asks for the buffer size, is not modelled. Neither are `AllocHGlobal`/`FreeHGlobal`.
- TcpTable.Fetch: a row count that runs past the buffer is modelled as the caught exception, with the message `FaultMessage`. It keeps the rows read so far. A buffer shorter than the 28-byte table structure (the count and one declared row) is also the fault, whatever its count. Natively this is undefined behaviour and may read garbage.
- TcpTable.DecodeRows: the loop's `int` index cannot overflow here, because the model bounds it by the rows that fit.
- GetProcessName is a lookup in a map from PID to process name. The `Process.GetProcessById` call, and its exception for a dead process, are the map's missing keys.
- `IPAddress`'s own formatting is not called. The model prints the four bytes directly, which is what it does for IPv4.
- Exception messages (`ex.Message`) are part of the inputs, as the message stored with a key that refuses reading or writing. The message of an invalid cast is one fixed text.
- Registry value kinds other than DWORD and SZ are not modelled.
- Decimal.TryParseInt32 accepts ASCII white space and an optional sign. Culture-specific signs and trailing NUL characters are not modelled.
- Checks.CheckGuestAccount: the PowerShell run is the `GuestQuery` input, and the model does not execute it.
- Hardening.ApplyHardeningBaseline: the PowerShell run is the `ScriptRun` input, and the model does not execute it. After a clean run the Guest query is taken to answer `GuestDisabled` (no errors, first result false). That is what `Disable-LocalUser` is assumed to do to a later `Get-LocalUser`, so the guest clause of BaselineMakesChecksPass holds by this assumption, not by a proof.
- Hardening.ScoreOf is integer arithmetic. The source computes the score in `double`, and its result truncates the same way for six checks.
- Dashboard.BarLevel compares a real percentage. `toFixed` text and floating-point rounding are not modelled.
- Dashboard.FormatRelativeTime takes the date as milliseconds, or None for an unparsable date. Date parsing and JavaScript number printing above 10^21 are not modelled.
- Ascii.Fold lowers ASCII capitals only. The Windows registry compares names with Unicode case rules, and JavaScript's `toLowerCase` lowers every Unicode capital. Every key path and value name the code uses is ASCII, so registry lookups agree.
- Dashboard.CountLevel lowers alert levels with Ascii.Fold. The lowered text differs from `toLowerCase`'s for a level holding a non-ASCII capital. Whether it equals "critical" or "warning" agrees only as far as no non-ASCII character lowers to a letter of those words.
- The wall clock is the logger's `clock` field, and the lock on the log is not modelled (there is no concurrency).
- The WPF dispatcher, navigation, brushes beyond their names, and the score's display text are not modelled.
- These parts of the dashboard are not modelled: the health card classes and health score in `updateHealthOverview`, `showToast`, the `fetch` calls, timers, the refresh flag, and the overlay and close-button wiring.
- `App.xaml.cs` and `M3_automation_monitoring/main.py` are not part of this model.
