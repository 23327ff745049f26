/** The NAT shard's one-row configuration table
    (internal/plumbing/ebpf/natmap/shardconfig.go): what may be written, and that it
    reads back. An IPv4 word is held as the four bytes it has in memory. */
module ShardTable {
  import opened Common

  type Byte = n: nat | n < 256
  type Bytes4 = a: seq<Byte> | |a| == 4 witness seq(4, _ => 0)
  type Bytes16 = a: seq<Byte> | |a| == 16 witness seq(16, _ => 0)

  const ZERO4: Bytes4 := [0, 0, 0, 0]
  const ZERO16: Bytes16 := [0, 0, 0, 0, 0, 0, 0, 0, 0, 0, 0, 0, 0, 0, 0, 0]
  const NAT64_BITS := 96

  datatype Addr = NoAddr | V4(b4: Bytes4) | V6(b16: Bytes16, zone: string)
  datatype Prefix = NoPrefix | Prefix(addr: Addr, bits: nat)
  datatype Config = Config(sid: Addr, pub6: Addr, pub4: Addr, nat64: Prefix, wellKnown: bool, echo: bool)

  datatype Row = Row(
    sid: Bytes16, pub6: Bytes16, pub4: Bytes4, nat64: Bytes16, servesV6: bool, servesV4: bool, echo: bool, wkp: bool)

  const EMPTY := Row(ZERO16, ZERO16, ZERO4, ZERO16, false, false, false, false)

  /** An IPv6 address that is not an IPv4 one in disguise. */
  predicate Native(a: Addr) {
    a.V6? && !((forall i | 0 <= i < 10 :: a.b16[i] == 0) && a.b16[10] == a.b16[11] == 255)
  }

  /** A native /96 with nothing set past its length. */
  predicate Nat64(p: Prefix) {
    p.Prefix? && Native(p.addr) && p.bits == NAT64_BITS && forall i | 12 <= i < 16 :: p.addr.b16[i] == 0
  }

  /** The IPv4 half of a config: an IPv4 address with its NAT64 prefix, or nothing. */
  predicate FamilyV4(c: Config) {
    if c.pub4 != NoAddr then c.pub4.V4? && Nat64(c.nat64) else c.nat64.NoPrefix? && !c.wellKnown
  }

  function ToWire(c: Config): Option<Row> {
    if !Native(c.sid) then None
    else if c.pub6 != NoAddr && !Native(c.pub6) then None
    else if !FamilyV4(c) then None
    else if c.pub6 == NoAddr && c.pub4 == NoAddr then None
    else
      var v6, v4 := c.pub6 != NoAddr, c.pub4 != NoAddr;
      Some(Row(c.sid.b16, if v6 then c.pub6.b16 else ZERO16, if v4 then c.pub4.b4 else ZERO4,
               if v4 then c.nat64.addr.b16 else ZERO16, v6, v4, c.echo, c.wellKnown))
  }

  /** What the row holds, nothing when it serves no family. */
  function FromWire(row: Row): Option<Config> {
    if !row.servesV6 && !row.servesV4 then None
    else
      Some(Config(V6(row.sid, ""), if row.servesV6 then V6(row.pub6, "") else NoAddr,
                  if row.servesV4 then V4(row.pub4) else NoAddr,
                  if row.servesV4 then Prefix(V6(row.nat64, ""), NAT64_BITS) else NoPrefix,
                  row.servesV4 && row.wkp, row.echo))
  }

  /** What may be written: a native SID, at least one family, a native IPv6 address if
      one is given, and an IPv4 address together with its native, aligned /96 or
      neither, nor then the well-known prefix. */
  lemma WritableExactly(c: Config)
    ensures ToWire(c).Some? <==>
            && Native(c.sid) && (c.pub6 == NoAddr || Native(c.pub6)) && (c.pub6 != NoAddr || c.pub4 != NoAddr)
            && (c.pub4 == NoAddr <==> c.nat64 == NoPrefix) && (c.pub4 == NoAddr ==> !c.wellKnown)
            && (c.pub4 != NoAddr ==> c.pub4.V4?)
            && (c.nat64 != NoPrefix ==>
                  Native(c.nat64.addr) && c.nat64.bits == 96 && c.nat64.addr.b16[12..] == ZERO4)
  {
    if c.nat64.Prefix? && c.nat64.addr.V6? {
      assert c.nat64.addr.b16[12..] == ZERO4 <==> forall i | 12 <= i < 16 :: c.nat64.addr.b16[i] == 0;
    }
  }

  predicate Zoned(a: Addr) {
    a.V6? && a.zone != ""
  }

  function Unzoned(a: Addr): Addr {
    if a.V6? then a.(zone := "") else a
  }

  /** A config that may be written reads back as it was, but for the zones of its
      two IPv6 addresses, which the row has no room for. A prefix has no zone. */
  lemma ReadsBackExactly(c: Config)
    requires ToWire(c).Some? && !(c.nat64.Prefix? && Zoned(c.nat64.addr))
    ensures FromWire(ToWire(c).value) == Some(c.(sid := Unzoned(c.sid), pub6 := Unzoned(c.pub6)))
    ensures FromWire(ToWire(c).value) == Some(c) <==> !Zoned(c.sid) && !Zoned(c.pub6)
  {
  }

  /** What was read may be written, and writes the same row: for every row that a
      write ever put there. */
  lemma WritesBack(c: Config)
    requires ToWire(c).Some?
    ensures ToWire(FromWire(ToWire(c).value).value) == ToWire(c)
  {
    var d := FromWire(ToWire(c).value).value;
    assert Native(d.sid) && (d.pub6 != NoAddr ==> Native(d.pub6)) && FamilyV4(d);
  }

  class ShardConfigTable {
    var row: Row

    constructor (initial: Row)
      ensures row == initial
    {
      row := initial;
    }

    /** puts is whether the kernel takes the row. */
    method Set(c: Config, puts: bool) returns (failed: bool)
      modifies this
      ensures failed <==> ToWire(c).None? || !puts
      ensures if failed then row == old(row) else Some(row) == ToWire(c)
    {
      var wire := ToWire(c);
      if wire.None? || !puts {
        return true;
      }
      row := wire.value;
      return false;
    }

    method Clear(puts: bool) returns (failed: bool)
      modifies this
      ensures failed <==> !puts
      ensures if failed then row == old(row) else FromWire(row).None?
    {
      if !puts {
        return true;
      }
      row := EMPTY;
      return false;
    }

    /** readable is whether the kernel gives the row. */
    method Get(readable: bool) returns (c: Option<Config>)
      ensures c == if readable then FromWire(row) else None
    {
      c := if readable then FromWire(row) else None;
    }
  }
}
