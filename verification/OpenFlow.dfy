/**
  Rules of an OpenFlow switch, as far as the core looks at them
  (vendor/github.com/opencord/voltha-lib-go/v3/pkg/flows/flow_utils.go).
*/
module OpenFlow {

  /** A match field. */
  datatype Field =
    | InPort(port: nat)
    | TunnelId(id: nat)
    | Metadata(metadata: nat)
    | EthType(ethType: nat)
    | VlanVid(vid: nat)
    | IpProto(proto: nat)
    | OtherField(kind: nat, value: nat)

  datatype Action =
    | Output(port: nat)
    | Group(group: nat)
    | PushVlan(ethType: nat)
    | PopVlan
    | SetField(field: Field)

  /** A rule; 0 stands for no next table, no meter and no metadata to write. */
  datatype Flow = Flow(
    tableId: nat,
    priority: nat,
    flags: nat,
    cookie: bv64,
    fields: seq<Field>,
    actions: seq<Action>,
    gotoTable: nat,
    meterId: nat,
    writeMetadata: nat,
    byteCount: nat,
    packetCount: nat)

  const OFPP_CONTROLLER: nat := 0x7fff_fffd
  const OFPP_ANY: nat := 0x7fff_ffff
  const OFPG_ANY: nat := 0x7fff_ffff
  const OFPTT_ALL: nat := 255
  const OFPVID_PRESENT: nat := 0x1000
  const OFPFF_CHECK_OVERLAP: nat := 2
  const OFPFF_RESET_COUNTS: nat := 4

  /** The low 31 bits of a port or group number. */
  function Low31(n: nat): nat { n % 0x8000_0000 }

  predicate HasFlag(flags: nat, flag: nat)
    requires flag > 0
  {
    (flags / flag) % 2 == 1
  }

  /** Two rules are the same entry of a table (FlowMatch). */
  predicate SameKey(f: Flow, g: Flow) {
    f.tableId == g.tableId && f.priority == g.priority && f.flags == g.flags && f.cookie == g.cookie && f.fields == g.fields
  }

  /** The first rule with the same key, or -1 (FindFlows). */
  function FindFlow(flows: seq<Flow>, flow: Flow): (k: int)
    ensures -1 <= k < |flows| && (k >= 0 ==> SameKey(flows[k], flow))
    ensures forall i | 0 <= i < (if k == -1 then |flows| else k) :: !SameKey(flows[i], flow)
  {
    if flows == [] then -1
    else if SameKey(flows[0], flow) then 0
    else
      var k := FindFlow(flows[1..], flow);
      if k == -1 then -1 else k + 1
  }
}
