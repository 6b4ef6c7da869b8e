/**
 * The network sentry: decoding the IPv4 TCP table that `GetExtendedTcpTable`
 * (class TCP_TABLE_OWNER_PID_ALL) writes into a buffer, into connection
 * records. The buffer is a sequence of bytes; 32-bit fields are stored little
 * endian, as on x86 and ARM Windows, while each port is a 4-byte array whose
 * first two bytes hold the port in network (big endian) order.
 *
 * Layout: a 4-byte row count, then rows of 24 bytes each
 *   0 state, 4 localAddr, 8 localPort[4], 12 remoteAddr, 16 remotePort[4], 20 owningPid.
 * The table structure is declared with room for one row, so reading its
 * header reads 4 + 24 = 28 bytes.
 */
module TcpTable {
  import opened Wrappers
  import opened Decimal
  import opened AuditLog

  type byte = x: int | 0 <= x < 0x100
  /** .NET `uint`. */
  type u32 = x: int | 0 <= x < 0x1_0000_0000

  const HeaderSize := 4
  const RowSize := 24
  /** `Marshal.SizeOf` of the table structure: the count and one row. */
  const TableSize := HeaderSize + RowSize

  // ------------------------------------------------------- 32-bit fields

  /** The little-endian 32-bit value at `off`. */
  function U32At(buf: seq<byte>, off: nat): u32
    requires off + 4 <= |buf|
  {
    buf[off] as int + 0x100 * buf[off + 1] as int + 0x1_0000 * buf[off + 2] as int + 0x100_0000 * buf[off + 3] as int
  }

  /** The four bytes of a 32-bit value, least significant first. */
  function EncodeU32(v: u32): (b: seq<byte>)
    ensures |b| == 4
  {
    [v % 0x100, v / 0x100 % 0x100, v / 0x1_0000 % 0x100, v / 0x100_0000]
  }

  lemma U32RoundTrip(v: u32)
    ensures U32At(EncodeU32(v), 0) == v
  {
    var b := EncodeU32(v);
    assert v == v % 0x100 + 0x100 * (v / 0x100);
    assert v / 0x100 == v / 0x100 % 0x100 + 0x100 * (v / 0x1_0000);
    assert v / 0x1_0000 == v / 0x1_0000 % 0x100 + 0x100 * (v / 0x100_0000);
  }

  /** Dividing `lo + 2^8 * hi` by 2^8 gives back `hi`, with remainder `lo`; likewise for 2^16 and 2^24. */
  lemma SplitLow8(lo: int, hi: int)
    requires 0 <= lo < 0x100 && 0 <= hi
    ensures (lo + 0x100 * hi) / 0x100 == hi && (lo + 0x100 * hi) % 0x100 == lo
  {
  }

  lemma SplitLow16(lo: int, hi: int)
    requires 0 <= lo < 0x1_0000 && 0 <= hi
    ensures (lo + 0x1_0000 * hi) / 0x1_0000 == hi
  {
  }

  lemma SplitLow24(lo: int, hi: int)
    requires 0 <= lo < 0x100_0000 && 0 <= hi
    ensures (lo + 0x100_0000 * hi) / 0x100_0000 == hi
  {
  }

  lemma BytesRoundTrip(buf: seq<byte>, off: nat)
    requires off + 4 <= |buf|
    ensures EncodeU32(U32At(buf, off)) == buf[off..off + 4]
  {
    var v := U32At(buf, off);
    var b0, b1, b2, b3 := buf[off] as int, buf[off + 1] as int, buf[off + 2] as int, buf[off + 3] as int;
    SplitLow8(b0, b1 + 0x100 * b2 + 0x1_0000 * b3);
    SplitLow8(b1, b2 + 0x100 * b3);
    SplitLow16(b0 + 0x100 * b1, b2 + 0x100 * b3);
    SplitLow8(b2, b3);
    SplitLow24(b0 + 0x100 * b1 + 0x1_0000 * b2, b3);
  }

  /** `(int)` of a `uint`: unchecked, so values from 2^31 up wrap to negative numbers. */
  function ToInt32(u: u32): (r: int32)
    ensures r % 0x1_0000_0000 == u
    ensures r >= 0 <==> u < 0x8000_0000
  {
    if u < 0x8000_0000 then u else u - 0x1_0000_0000
  }

  lemma ToInt32Injective(a: u32, b: u32)
    requires ToInt32(a) == ToInt32(b)
    ensures a == b
  {
  }

  // ---------------------------------------------------------------- ports

  /** The port from the first two bytes of the 4-byte port field, network order; the other two are ignored. */
  function PortToHostOrder(port: seq<byte>): (p: int)
    requires |port| >= 2
    ensures 0 <= p < 0x1_0000
  {
    port[0] as int * 0x100 + port[1] as int
  }

  /** The port field the table holds for a port. */
  function EncodePort(p: nat): (b: seq<byte>)
    requires p < 0x1_0000
    ensures |b| == 4
  {
    [p / 0x100, p % 0x100, 0, 0]
  }

  lemma PortRoundTrip(p: nat)
    requires p < 0x1_0000
    ensures PortToHostOrder(EncodePort(p)) == p
  {
  }

  /** Two port fields decode to the same port exactly when their first two bytes agree. */
  lemma PortInjective(a: seq<byte>, b: seq<byte>)
    requires |a| >= 2 && |b| >= 2
    ensures PortToHostOrder(a) == PortToHostOrder(b) <==> a[0] == b[0] && a[1] == b[1]
  {
  }

  /** Port 80 in a table row. */
  lemma PortExample()
    ensures PortToHostOrder([0x00, 0x50, 0x12, 0x34]) == 80
    ensures PortToHostOrder([0x01, 0xBB, 0, 0]) == 443
  {
  }

  // ------------------------------------------------------------ addresses

  /** The octets of an address as `IPAddress(long)` takes them: the least significant byte first. */
  function Octets(ip: u32): (o: seq<byte>)
    ensures |o| == 4
  {
    EncodeU32(ip)
  }

  function Dotted(o: seq<byte>): string
    requires |o| == 4
  {
    NatToString(o[0]) + ("." + (NatToString(o[1]) + ("." + (NatToString(o[2]) + ("." + NatToString(o[3]))))))
  }

  /** `new IPAddress(ip).ToString()`: the dotted quad of the octets. */
  function IPToString(ip: u32): string {
    Dotted(Octets(ip))
  }

  /** The text before the first dot is the first number, and the rest is what follows it. */
  lemma SplitAtDot(a: string, r: string, b: string, q: string)
    requires AllDigits(a) && AllDigits(b)
    requires |r| > 0 && r[0] == '.' && |q| > 0 && q[0] == '.'
    requires a + r == b + q
    ensures a == b && r == q
  {
    assert (a + r)[|a|] == '.' && (b + q)[|b|] == '.';
    assert |a| == |b|;
    assert a == (a + r)[..|a|] == (b + q)[..|b|] == b;
    assert r == (a + r)[|a|..] == (b + q)[|b|..] == q;
  }

  lemma DottedInjective(o: seq<byte>, p: seq<byte>)
    requires |o| == 4 && |p| == 4
    requires Dotted(o) == Dotted(p)
    ensures o == p
  {
    var x0, x1, x2, x3 := NatToString(o[0]), NatToString(o[1]), NatToString(o[2]), NatToString(o[3]);
    var y0, y1, y2, y3 := NatToString(p[0]), NatToString(p[1]), NatToString(p[2]), NatToString(p[3]);
    var xr2, yr2 := x2 + ("." + x3), y2 + ("." + y3);
    var xr1, yr1 := x1 + ("." + xr2), y1 + ("." + yr2);
    SplitAtDot(x0, "." + xr1, y0, "." + yr1);
    assert xr1 == ("." + xr1)[1..] == ("." + yr1)[1..] == yr1;
    SplitAtDot(x1, "." + xr2, y1, "." + yr2);
    assert xr2 == ("." + xr2)[1..] == ("." + yr2)[1..] == yr2;
    SplitAtDot(x2, "." + x3, y2, "." + y3);
    assert x3 == ("." + x3)[1..] == ("." + y3)[1..] == y3;
    NatToStringInjective(o[0], p[0]);
    NatToStringInjective(o[1], p[1]);
    NatToStringInjective(o[2], p[2]);
    NatToStringInjective(o[3], p[3]);
  }

  /** Different addresses print differently. */
  lemma IPToStringInjective(a: u32, b: u32)
    requires IPToString(a) == IPToString(b)
    ensures a == b
  {
    DottedInjective(Octets(a), Octets(b));
    U32RoundTrip(a);
    U32RoundTrip(b);
  }

  /** An address as the table stores it: the buffer's bytes in order are the octets in order. */
  lemma IPToStringOfBuffer(buf: seq<byte>, off: nat)
    requires off + 4 <= |buf|
    ensures IPToString(U32At(buf, off)) == Dotted(buf[off..off + 4])
  {
    BytesRoundTrip(buf, off);
  }

  // --------------------------------------------------------------- states

  /** `TcpState`: the MIB_TCP_STATE values 1 to 12. */
  datatype TcpState =
    | Closed | Listen | SynSent | SynReceived | Established | FinWait1
    | FinWait2 | CloseWait | Closing | LastAck | TimeWait | DeleteTcb

  function StateValue(s: TcpState): (v: int)
    ensures 1 <= v <= 12
  {
    match s
    case Closed => 1
    case Listen => 2
    case SynSent => 3
    case SynReceived => 4
    case Established => 5
    case FinWait1 => 6
    case FinWait2 => 7
    case CloseWait => 8
    case Closing => 9
    case LastAck => 10
    case TimeWait => 11
    case DeleteTcb => 12
  }

  /** The named member with a given value, if there is one. */
  function StateOf(v: int): (s: Option<TcpState>)
    ensures s.Some? <==> 1 <= v <= 12
    ensures s.Some? ==> StateValue(s.value) == v
  {
    if v == 1 then Some(Closed)
    else if v == 2 then Some(Listen)
    else if v == 3 then Some(SynSent)
    else if v == 4 then Some(SynReceived)
    else if v == 5 then Some(Established)
    else if v == 6 then Some(FinWait1)
    else if v == 7 then Some(FinWait2)
    else if v == 8 then Some(CloseWait)
    else if v == 9 then Some(Closing)
    else if v == 10 then Some(LastAck)
    else if v == 11 then Some(TimeWait)
    else if v == 12 then Some(DeleteTcb)
    else None
  }

  function Name(s: TcpState): (n: string)
    ensures |n| > 0 && !IsDigit(n[0]) && n[0] != '-'
  {
    match s
    case Closed => "Closed"
    case Listen => "Listen"
    case SynSent => "SynSent"
    case SynReceived => "SynReceived"
    case Established => "Established"
    case FinWait1 => "FinWait1"
    case FinWait2 => "FinWait2"
    case CloseWait => "CloseWait"
    case Closing => "Closing"
    case LastAck => "LastAck"
    case TimeWait => "TimeWait"
    case DeleteTcb => "DeleteTcb"
  }

  lemma NameInjective(a: TcpState, b: TcpState)
    requires Name(a) == Name(b)
    ensures a == b
  {
    assert Name(a)[|Name(a)| - 1] == Name(b)[|Name(b)| - 1];
    assert |Name(a)| == |Name(b)|;
    assert Name(a)[0] == Name(b)[0];
  }

  /**
   * `((TcpState)row.state).ToString()`: the member name for 1 to 12, and for
   * any other value the decimal text of the value cast to the enum's `int`.
   */
  function StateText(state: u32): (t: string)
    ensures 1 <= state <= 12 ==> t == Name(StateOf(state).value)
    ensures !(1 <= state <= 12) ==> t == IntToString(ToInt32(state))
  {
    var s := StateOf(state);
    if s.Some? then Name(s.value) else IntToString(ToInt32(state))
  }

  /** Different state values print differently, named or not. */
  lemma StateTextInjective(a: u32, b: u32)
    requires StateText(a) == StateText(b)
    ensures a == b
  {
    var sa, sb := StateOf(a), StateOf(b);
    if sa.Some? && sb.Some? {
      NameInjective(sa.value, sb.value);
    } else if sa.None? && sb.None? {
      IntToStringInjective(ToInt32(a), ToInt32(b));
      ToInt32Injective(a, b);
    }
  }

  lemma StateTextExamples()
    ensures StateText(5) == "Established"
    ensures StateText(0) == "0"
    ensures StateText(0xFFFF_FFFF) == "-1"
  {
    assert NatToString(0) == "0";
    assert NatToString(1) == "1";
  }

  // ----------------------------------------------------------------- rows

  /** `MIB_TCPROW_OWNER_PID`. */
  datatype TcpRow = TcpRow(state: u32, localAddr: u32, localPort: seq<byte>,
                           remoteAddr: u32, remotePort: seq<byte>, owningPid: u32)

  predicate WellFormed(r: TcpRow) {
    |r.localPort| == 4 && |r.remotePort| == 4
  }

  /** `NetworkConnection`. */
  datatype NetworkConnection = NetworkConnection(
    localAddress: string, localPort: int, remoteAddress: string, remotePort: int,
    state: string, pid: int, processName: string)

  /** The row at `off`, as `Marshal.PtrToStructure` reads it. */
  function ParseRow(buf: seq<byte>, off: nat): (r: TcpRow)
    requires off + RowSize <= |buf|
    ensures WellFormed(r)
  {
    TcpRow(U32At(buf, off), U32At(buf, off + 4), buf[off + 8..off + 12],
           U32At(buf, off + 12), buf[off + 16..off + 20], U32At(buf, off + 20))
  }

  function EncodeRow(r: TcpRow): (b: seq<byte>)
    requires WellFormed(r)
    ensures |b| == RowSize
  {
    EncodeU32(r.state) + EncodeU32(r.localAddr) + r.localPort
    + EncodeU32(r.remoteAddr) + r.remotePort + EncodeU32(r.owningPid)
  }

  /** A row reads from its own 24 bytes only. */
  lemma ParseRowLocal(buf: seq<byte>, off: nat)
    requires off + RowSize <= |buf|
    ensures ParseRow(buf, off) == ParseRow(buf[off..off + RowSize], 0)
  {
    var b := buf[off..off + RowSize];
    assert |b| == 24;
    assert forall k :: 0 <= k < 24 ==> b[k] == buf[off + k];
    assert b[8..12] == buf[off + 8..off + 12];
    assert b[16..20] == buf[off + 16..off + 20];
  }

  lemma ParseEncodeRow(r: TcpRow)
    requires WellFormed(r)
    ensures ParseRow(EncodeRow(r), 0) == r
  {
    var b := EncodeRow(r);
    U32RoundTrip(r.state);
    U32RoundTrip(r.localAddr);
    U32RoundTrip(r.remoteAddr);
    U32RoundTrip(r.owningPid);
    assert b[0..4] == EncodeU32(r.state);
    assert b[4..8] == EncodeU32(r.localAddr);
    assert b[8..12] == r.localPort;
    assert b[12..16] == EncodeU32(r.remoteAddr);
    assert b[16..20] == r.remotePort;
    assert b[20..24] == EncodeU32(r.owningPid);
  }

  /** `GetProcessName`: the name of the running process with that id, or "Unknown" when there is none. */
  function GetProcessName(processes: map<int, string>, pid: int): string {
    if pid in processes then processes[pid] else "Unknown"
  }

  /** The record built from one row. */
  function Connection(r: TcpRow, processes: map<int, string>): (c: NetworkConnection)
    requires WellFormed(r)
    ensures c.localPort == PortToHostOrder(r.localPort) && c.remotePort == PortToHostOrder(r.remotePort)
    ensures c.localAddress == Dotted(EncodeU32(r.localAddr)) && c.remoteAddress == Dotted(EncodeU32(r.remoteAddr))
    ensures c.state == StateText(r.state)
    ensures c.pid == ToInt32(r.owningPid) && c.pid % 0x1_0000_0000 == r.owningPid
    ensures c.processName == GetProcessName(processes, c.pid)
  {
    var pid := ToInt32(r.owningPid);
    NetworkConnection(IPToString(r.localAddr), PortToHostOrder(r.localPort),
                      IPToString(r.remoteAddr), PortToHostOrder(r.remotePort),
                      StateText(r.state), pid, GetProcessName(processes, pid))
  }

  // ---------------------------------------------------------------- table

  /** The outcome of a fetch: the connections, and whether reading the buffer faulted. */
  datatype TcpFetch = TcpFetch(connections: seq<NetworkConnection>, faulted: bool)

  /** The rows of the table in order, the first `n` of them. */
  function TableRows(buf: seq<byte>, n: nat): (rows: seq<TcpRow>)
    requires HeaderSize + RowSize * n <= |buf|
    ensures |rows| == n
    ensures forall i :: 0 <= i < n ==> WellFormed(rows[i])
  {
    if n == 0 then [] else TableRows(buf, n - 1) + [ParseRow(buf, HeaderSize + RowSize * (n - 1))]
  }

  /** The i-th row is the one at offset 4 + 24 * i. */
  lemma {:induction false} TableRowsAt(buf: seq<byte>, n: nat, i: nat)
    requires HeaderSize + RowSize * n <= |buf|
    requires i < n
    ensures TableRows(buf, n)[i] == ParseRow(buf, HeaderSize + RowSize * i)
  {
    if i < n - 1 {
      TableRowsAt(buf, n - 1, i);
    }
  }

  /** The records a builder makes from rows, in the same order. */
  function MapRows(rows: seq<TcpRow>, build: TcpRow --> NetworkConnection): (cs: seq<NetworkConnection>)
    requires forall i :: 0 <= i < |rows| ==> build.requires(rows[i])
    ensures |cs| == |rows|
    decreases |rows|
  {
    if rows == [] then []
    else MapRows(rows[..|rows| - 1], build) + [build(rows[|rows| - 1])]
  }

  /** One more row adds its record at the end. */
  lemma MapRowsSnoc(rows: seq<TcpRow>, row: TcpRow, build: TcpRow --> NetworkConnection)
    requires forall i :: 0 <= i < |rows| ==> build.requires(rows[i])
    requires build.requires(row)
    ensures MapRows(rows + [row], build) == MapRows(rows, build) + [build(row)]
  {
    assert (rows + [row])[..|rows|] == rows;
  }

  /** The i-th record is made from the i-th row. */
  lemma {:induction false} MapRowsAt(rows: seq<TcpRow>, build: TcpRow --> NetworkConnection, i: nat)
    requires forall k :: 0 <= k < |rows| ==> build.requires(rows[k])
    requires i < |rows|
    ensures MapRows(rows, build)[i] == build(rows[i])
    decreases |rows|
  {
    var front := rows[..|rows| - 1];
    if i < |front| {
      MapRowsAt(front, build, i);
    }
  }

  /** The builder of `GetNetworkConnections`: the record of a row, naming its process from `processes`. */
  function ConnectionOf(processes: map<int, string>): (build: TcpRow --> NetworkConnection)
    ensures forall r :: WellFormed(r) ==> build.requires(r)
  {
    r requires WellFormed(r) => Connection(r, processes)
  }

  /** The records of rows, in the same order. */
  function Connections(rows: seq<TcpRow>, processes: map<int, string>): (cs: seq<NetworkConnection>)
    requires forall i :: 0 <= i < |rows| ==> WellFormed(rows[i])
    ensures |cs| == |rows|
  {
    MapRows(rows, ConnectionOf(processes))
  }

  /** The i-th record is built from the i-th row. */
  lemma ConnectionsAt(rows: seq<TcpRow>, processes: map<int, string>, i: nat)
    requires forall k :: 0 <= k < |rows| ==> WellFormed(rows[k])
    requires i < |rows|
    ensures Connections(rows, processes)[i] == Connection(rows[i], processes)
  {
    MapRowsAt(rows, ConnectionOf(processes), i);
  }

  /**
   * What the fetch yields for the status the second `GetExtendedTcpTable`
   * call returned and the buffer it filled. A non-zero status yields no
   * connections. With status 0 the header is read (28 bytes), then rows are
   * decoded one after another; reading past the end of the buffer faults, and
   * the rows decoded before the fault are kept.
   */
  function Fetch(status: u32, buf: seq<byte>, processes: map<int, string>): TcpFetch {
    if status != 0 then TcpFetch([], false)
    else if |buf| < TableSize then TcpFetch([], true)
    else if HeaderSize + RowSize * U32At(buf, 0) <= |buf| then
      TcpFetch(Connections(TableRows(buf, U32At(buf, 0)), processes), false)
    else
      TcpFetch(Connections(TableRows(buf, (|buf| - HeaderSize) / RowSize), processes), true)
  }

  /**
   * The connections are the table's rows in order: as many as the header
   * counts when they all fit, otherwise as many as fit before the fault.
   */
  lemma FetchShape(status: u32, buf: seq<byte>, processes: map<int, string>)
    ensures var f := Fetch(status, buf, processes);
            && (status != 0 ==> f == TcpFetch([], false))
            && (status == 0 && |buf| < TableSize ==> f == TcpFetch([], true))
            && (status == 0 && |buf| >= TableSize ==>
                  && (f.faulted <==> HeaderSize + RowSize * U32At(buf, 0) > |buf|)
                  && |f.connections| <= U32At(buf, 0)
                  && (!f.faulted ==> |f.connections| == U32At(buf, 0))
                  && (f.faulted ==> HeaderSize + RowSize * (|f.connections| + 1) > |buf|)
                  && HeaderSize + RowSize * |f.connections| <= |buf|
                  && forall i :: 0 <= i < |f.connections| ==>
                       f.connections[i] == Connection(ParseRow(buf, HeaderSize + RowSize * i), processes))
  {
    var f := Fetch(status, buf, processes);
    if status == 0 && |buf| >= TableSize {
      var n := |f.connections|;
      var rows := TableRows(buf, n);
      assert f.connections == Connections(rows, processes);
      forall i | 0 <= i < n
        ensures f.connections[i] == Connection(ParseRow(buf, HeaderSize + RowSize * i), processes)
      {
        ConnectionsAt(rows, processes, i);
        TableRowsAt(buf, n, i);
      }
    }
  }

  /** A zero count yields no connections and no fault. */
  lemma FetchEmpty(buf: seq<byte>, processes: map<int, string>)
    requires |buf| >= TableSize && U32At(buf, 0) == 0
    ensures Fetch(0, buf, processes) == TcpFetch([], false)
  {
  }

  /** The bytes of a table holding `rows`, padded to the table structure's size. */
  function EncodeTable(rows: seq<TcpRow>): (b: seq<byte>)
    requires |rows| < 0x1_0000_0000
    requires forall i :: 0 <= i < |rows| ==> WellFormed(rows[i])
    ensures |b| == if rows == [] then TableSize else HeaderSize + RowSize * |rows|
  {
    EncodeU32(|rows|) + EncodeRows(rows) + (if rows == [] then seq(RowSize, _ => 0) else [])
  }

  function EncodeRows(rows: seq<TcpRow>): (b: seq<byte>)
    requires forall i :: 0 <= i < |rows| ==> WellFormed(rows[i])
    ensures |b| == RowSize * |rows|
  {
    if rows == [] then [] else EncodeRow(rows[0]) + EncodeRows(rows[1..])
  }

  lemma {:induction false} EncodeRowsAt(rows: seq<TcpRow>, i: nat)
    requires forall k :: 0 <= k < |rows| ==> WellFormed(rows[k])
    requires i < |rows|
    ensures RowSize * i + RowSize <= |EncodeRows(rows)|
    ensures EncodeRows(rows)[RowSize * i..RowSize * i + RowSize] == EncodeRow(rows[i])
  {
    var b := EncodeRows(rows);
    assert b == EncodeRow(rows[0]) + EncodeRows(rows[1..]);
    if i > 0 {
      EncodeRowsAt(rows[1..], i - 1);
      assert b[RowSize * i..RowSize * i + RowSize]
          == EncodeRows(rows[1..])[RowSize * (i - 1)..RowSize * (i - 1) + RowSize];
    }
  }

  lemma EncodedTableHeader(rows: seq<TcpRow>)
    requires |rows| < 0x1_0000_0000
    requires forall i :: 0 <= i < |rows| ==> WellFormed(rows[i])
    ensures U32At(EncodeTable(rows), 0) == |rows|
  {
    var buf := EncodeTable(rows);
    assert buf[0..4] == EncodeU32(|rows|);
    U32RoundTrip(|rows|);
  }

  lemma EncodedTableRow(rows: seq<TcpRow>, i: nat)
    requires |rows| < 0x1_0000_0000
    requires forall k :: 0 <= k < |rows| ==> WellFormed(rows[k])
    requires i < |rows|
    ensures ParseRow(EncodeTable(rows), HeaderSize + RowSize * i) == rows[i]
  {
    var buf := EncodeTable(rows);
    var off := HeaderSize + RowSize * i;
    EncodeRowsAt(rows, i);
    assert buf == EncodeU32(|rows|) + EncodeRows(rows);
    assert buf[off..off + RowSize] == EncodeRows(rows)[RowSize * i..RowSize * i + RowSize];
    ParseRowLocal(buf, off);
    ParseEncodeRow(rows[i]);
  }

  /** The rows of an encoded table are the rows it was built from. */
  lemma EncodedTableRows(rows: seq<TcpRow>)
    requires |rows| < 0x1_0000_0000
    requires forall i :: 0 <= i < |rows| ==> WellFormed(rows[i])
    ensures HeaderSize + RowSize * |rows| <= |EncodeTable(rows)|
    ensures TableRows(EncodeTable(rows), |rows|) == rows
  {
    var buf := EncodeTable(rows);
    forall i | 0 <= i < |rows|
      ensures TableRows(buf, |rows|)[i] == rows[i]
    {
      EncodedTableRow(rows, i);
      TableRowsAt(buf, |rows|, i);
    }
  }

  /** Decoding an encoded table gives back the records of its rows in order, with no fault. */
  lemma FetchEncodedTable(rows: seq<TcpRow>, processes: map<int, string>)
    requires |rows| < 0x1_0000_0000
    requires forall i :: 0 <= i < |rows| ==> WellFormed(rows[i])
    ensures Fetch(0, EncodeTable(rows), processes) == TcpFetch(Connections(rows, processes), false)
  {
    EncodedTableHeader(rows);
    EncodedTableRows(rows);
  }

  /** The rows that fit in a buffer. */
  lemma RowsThatFit(len: int, n: nat)
    requires HeaderSize + RowSize * n <= len < HeaderSize + RowSize * (n + 1)
    ensures (len - HeaderSize) / RowSize == n
  {
  }

  /** `GetNetworkConnections` up to the decoding loop: the status and the header. */
  method DecodeTable(status: u32, buf: seq<byte>, processes: map<int, string>) returns (r: TcpFetch)
    ensures r == Fetch(status, buf, processes)
  {
    if status != 0 {
      r := TcpFetch([], false);
    } else if |buf| < TableSize {
      r := TcpFetch([], true);
    } else {
      r := DecodeRows(buf, U32At(buf, 0), ConnectionOf(processes));
    }
  }

  /** Decoding one more row adds its record at the end. */
  lemma DecodeStep(buf: seq<byte>, i: nat, build: TcpRow --> NetworkConnection)
    requires HeaderSize + RowSize * (i + 1) <= |buf|
    requires forall row :: WellFormed(row) ==> build.requires(row)
    ensures MapRows(TableRows(buf, i + 1), build)
            == MapRows(TableRows(buf, i), build) + [build(ParseRow(buf, HeaderSize + RowSize * i))]
  {
    MapRowsSnoc(TableRows(buf, i), ParseRow(buf, HeaderSize + RowSize * i), build);
  }

  /**
   * The decoding loop, one row at a time, until the count is reached or a row
   * runs past the buffer; `build` makes the record of each row read.
   */
  method DecodeRows(buf: seq<byte>, count: nat, build: TcpRow --> NetworkConnection) returns (r: TcpFetch)
    requires HeaderSize <= |buf|
    requires forall row :: WellFormed(row) ==> build.requires(row)
    ensures HeaderSize + RowSize * count <= |buf| ==> r == TcpFetch(MapRows(TableRows(buf, count), build), false)
    ensures HeaderSize + RowSize * count > |buf| ==>
              r == TcpFetch(MapRows(TableRows(buf, (|buf| - HeaderSize) / RowSize), build), true)
  {
    var connections: seq<NetworkConnection> := [];
    var offset := HeaderSize;
    var i := 0;
    while i < count
      invariant 0 <= i <= count
      invariant offset == HeaderSize + RowSize * i <= |buf|
      invariant connections == MapRows(TableRows(buf, i), build)
    {
      if offset + RowSize > |buf| {
        RowsThatFit(|buf|, i);
        return TcpFetch(connections, true);
      }
      var row := ParseRow(buf, offset);
      DecodeStep(buf, i, build);
      connections := connections + [build(row)];
      offset := offset + RowSize;
      i := i + 1;
    }
    r := TcpFetch(connections, false);
  }

  /** The text of the exception a read past the end of the buffer raises. */
  const FaultMessage := "Attempted to read or write protected memory."

  /** `GetNetworkConnections`: the decoded list, and one ERROR entry when decoding faulted. */
  method GetNetworkConnections(status: u32, buf: seq<byte>, processes: map<int, string>, log: AuditLogger)
    returns (connections: seq<NetworkConnection>)
    modifies log`logs
    ensures connections == Fetch(status, buf, processes).connections
    ensures log.logs == old(log.logs)
                        + if Fetch(status, buf, processes).faulted
                          then [AuditLogEntry(log.clock, "Error fetching network connections: " + FaultMessage, "ERROR")]
                          else []
  {
    var r := DecodeTable(status, buf, processes);
    if r.faulted {
      log.Log("Error fetching network connections: " + FaultMessage, "ERROR");
    }
    connections := r.connections;
  }
}
