/**
 * Volume contexts: the string map that the controller builds from the storage API's answer, that the
 * node stashes as a JSON file, and from which both Stage and Unstage build their initiator.
 */
module Contexts {
  import opened Strings
  import opened Identifiers

  /** A JSON document as a tree. A Go string is plain text or the text of such a document. */
  datatype Json =
    | JNull
    | JBool(b: bool)
    | JNum(n: int)
    | JStr(t: Text)
    | JArr(items: seq<Json>)
    | JObj(fields: map<string, Json>)

  datatype Text = Plain(s: string) | Encoded(doc: Json)

  type Context = map<string, Text>

  /** Reading a Go map: a missing key gives the empty string. */
  function Lookup(c: Context, key: string): Text {
    if key in c then c[key] else Plain("")
  }

  function AtoiText(t: Text): Option<int> {
    match t
    case Plain(s) => Atoi(s)
    case Encoded(JNum(n)) => if -MAX_INT64 - 1 <= n <= MAX_INT64 then Some(n) else None
    case Encoded(_) => None
  }

  /** `json.Unmarshal` of a string into a tree; plain text is not a document. */
  function ParseText(t: Text): Option<Json> {
    match t
    case Plain(_) => None
    case Encoded(doc) => Some(doc)
  }

  // ---------- Stash file ----------

  /** What `json.Marshal` writes for a string map, and what `json.Unmarshal` reads back. */
  function EncodeContext(c: Context): Json {
    JObj(map k | k in c :: JStr(c[k]))
  }

  /** `ConvertInterfaceToMap`: an object all of whose values are strings. */
  function ConvertInterfaceToMap(data: Json): Option<Context> {
    match data
    case JObj(fields) =>
      if forall k | k in fields :: fields[k].JStr? then Some(map k | k in fields :: fields[k].t) else None
    case _ => None
  }

  lemma StashRoundTrip(c: Context)
    ensures ConvertInterfaceToMap(EncodeContext(c)) == Some(c)
  {
    var fields := EncodeContext(c).fields;
    assert (map k | k in fields :: fields[k].t) == c;
  }

  /**
   * `ConvertInterfaceToMap` as the loop it is: it visits the entries in an arbitrary order and gives up at
   * the first value that is not a string.
   */
  method ConvertEntries(fields: map<string, Json>) returns (out: Option<Context>)
    ensures out == ConvertInterfaceToMap(JObj(fields))
  {
    var strMap: Context := map[];
    var todo := fields.Keys;
    while todo != {}
      invariant todo <= fields.Keys
      invariant strMap.Keys == fields.Keys - todo
      invariant forall k | k in strMap :: fields[k].JStr? && strMap[k] == fields[k].t
      decreases todo
    {
      var key :| key in todo;
      if fields[key].JStr? {
        strMap := strMap[key := fields[key].t];
      } else {
        return None;
      }
      todo := todo - {key};
    }
    assert forall k | k in fields :: k in strMap;
    assert strMap == map k | k in fields :: fields[k].t;
    return Some(strMap);
  }

  // ---------- Initiator ----------

  datatype ConnectionInfo = ConnectionInfo(ip: string, port: int)

  /** The fields of an NVMe-oF initiator. */
  datatype Initiator = Initiator(
    targetType: Text,
    connections: seq<ConnectionInfo>,
    nqn: Text,
    reconnectDelay: Text,
    nrIoQueues: Text,
    ctrlLossTmo: Text,
    model: Text,
    nsId: Text)

  function EncodeConnection(c: ConnectionInfo): Json {
    JObj(map["ip" := JStr(Plain(c.ip)), "port" := JNum(c.port)])
  }

  /** A nil slice marshals to null. */
  function EncodeConnections(cs: seq<ConnectionInfo>): Json {
    if cs == [] then JNull else JArr(seq(|cs|, i requires 0 <= i < |cs| => EncodeConnection(cs[i])))
  }

  /** Unmarshalling into a struct: absent and null fields keep their zero value, a wrong type is an error. */
  function DecodeConnection(j: Json): Option<ConnectionInfo> {
    match j
    case JNull => Some(ConnectionInfo("", 0))
    case JObj(fields) =>
      var ip := if "ip" in fields then fields["ip"] else JNull;
      var port := if "port" in fields then fields["port"] else JNull;
      (match (ip, port)
       case (JStr(Plain(s)), JNum(n)) => Some(ConnectionInfo(s, n))
       case (JNull, JNum(n)) => Some(ConnectionInfo("", n))
       case (JStr(Plain(s)), JNull) => Some(ConnectionInfo(s, 0))
       case (JNull, JNull) => Some(ConnectionInfo("", 0))
       case _ => None)
    case _ => None
  }

  function DecodeAll(items: seq<Json>): Option<seq<ConnectionInfo>> {
    if items == [] then Some([])
    else
      match (DecodeConnection(items[0]), DecodeAll(items[1..]))
      case (Some(c), Some(rest)) => Some([c] + rest)
      case _ => None
  }

  function DecodeConnections(j: Json): Option<seq<ConnectionInfo>> {
    match j
    case JNull => Some([])
    case JArr(items) => DecodeAll(items)
    case _ => None
  }

  lemma {:induction false} ConnectionsRoundTrip(cs: seq<ConnectionInfo>)
    ensures DecodeConnections(EncodeConnections(cs)) == Some(cs)
  {
    if cs != [] {
      DecodeAllEncoded(cs);
    }
  }

  lemma {:induction false} DecodeAllEncoded(cs: seq<ConnectionInfo>)
    ensures DecodeAll(seq(|cs|, i requires 0 <= i < |cs| => EncodeConnection(cs[i]))) == Some(cs)
  {
    if cs != [] {
      var rest := cs[1..];
      DecodeAllEncoded(rest);
      var items := seq(|cs|, i requires 0 <= i < |cs| => EncodeConnection(cs[i]));
      assert items[1..] == seq(|rest|, i requires 0 <= i < |rest| => EncodeConnection(rest[i]));
      assert DecodeConnection(items[0]) == Some(cs[0]);
      assert [cs[0]] + rest == cs;
    }
  }

  /** Lower-casing a target type; the text of a document is never one of the known types. */
  function LowerText(t: Text): string {
    match t
    case Plain(s) => ToLower(s)
    case Encoded(_) => "{}"
  }

  /** NewSpdkCsiInitiator for the target types modelled here: "tcp", in any case of letters. */
  function NewInitiator(c: Context): Option<Initiator> {
    if LowerText(Lookup(c, "targetType")) != "tcp" then None
    else
      match ParseText(Lookup(c, "connections"))
      case None => None
      case Some(doc) =>
        match DecodeConnections(doc)
        case None => None
        case Some(cs) =>
          Some(Initiator(Lookup(c, "targetType"), cs, Lookup(c, "nqn"), Lookup(c, "reconnectDelay"),
                         Lookup(c, "nrIoQueues"), Lookup(c, "ctrlLossTmo"), Lookup(c, "model"), Lookup(c, "nsId")))
  }

  // ---------- From the storage API to the node ----------

  datatype LvolConnectResp = LvolConnectResp(
    nqn: string, reconnectDelay: int, nrIoQueues: int, ctrlLossTmo: int, port: int, ip: string, nsId: int)

  function Endpoints(rs: seq<LvolConnectResp>): seq<ConnectionInfo> {
    seq(|rs|, i requires 0 <= i < |rs| => ConnectionInfo(rs[i].ip, rs[i].port))
  }

  /** The context that getVolumeInfo returns for the API's list of connections. */
  function VolumeInfo(lvolID: string, rs: seq<LvolConnectResp>): Context
    requires rs != []
  {
    map[
      "name" := Plain(lvolID),
      "uuid" := Plain(lvolID),
      "nqn" := Plain(rs[0].nqn),
      "reconnectDelay" := Plain(Itoa(rs[0].reconnectDelay)),
      "nrIoQueues" := Plain(Itoa(rs[0].nrIoQueues)),
      "ctrlLossTmo" := Plain(Itoa(rs[0].ctrlLossTmo)),
      "model" := Plain(GetLvolIDFromNQN(rs[0].nqn).1),
      "targetType" := Plain("tcp"),
      "connections" := Encoded(EncodeConnections(Endpoints(rs))),
      "nsId" := Plain(Itoa(rs[0].nsId))
    ]
  }

  /** getVolumeInfo: the append loop over the API's answer. */
  method GetVolumeInfo(lvolID: string, rs: seq<LvolConnectResp>) returns (info: Context)
    requires rs != []
    ensures info == VolumeInfo(lvolID, rs)
  {
    var connections: seq<ConnectionInfo> := [];
    for i := 0 to |rs|
      invariant connections == Endpoints(rs)[..i]
    {
      connections := connections + [ConnectionInfo(rs[i].ip, rs[i].port)];
    }
    assert connections == Endpoints(rs);
    info := map[
      "name" := Plain(lvolID),
      "uuid" := Plain(lvolID),
      "nqn" := Plain(rs[0].nqn),
      "reconnectDelay" := Plain(Itoa(rs[0].reconnectDelay)),
      "nrIoQueues" := Plain(Itoa(rs[0].nrIoQueues)),
      "ctrlLossTmo" := Plain(Itoa(rs[0].ctrlLossTmo)),
      "model" := Plain(GetLvolIDFromNQN(rs[0].nqn).1),
      "targetType" := Plain("tcp"),
      "connections" := Encoded(EncodeConnections(connections)),
      "nsId" := Plain(Itoa(rs[0].nsId))
    ];
  }

  /**
   * The context CreateVolume answers with: the request's parameters, overridden by the volume's
   * information, whose target type a "type" parameter overrides in turn.
   */
  function ControllerContext(params: Context, info: Context): Context {
    var merged := params + info;
    if "type" in params then merged["targetType" := params["type"]] else merged
  }

  /** What Stage adds to the context before it stashes it. */
  function StagedContext(c: Context, stagingParentPath: string, devicePath: string): Context {
    c["stagingParentPath" := Plain(stagingParentPath)]["devicePath" := Plain(devicePath)]
  }

  /** Stage's additions do not reach the initiator. */
  lemma StagedInitiator(c: Context, parent: string, device: string)
    ensures NewInitiator(StagedContext(c, parent, device)) == NewInitiator(c)
    ensures NewInitiator(c["stagingParentPath" := Plain(parent)]) == NewInitiator(c)
  {}

  /** The volume's information overrides every parameter of the same key but "type"; all others are kept. */
  lemma InfoOverrides(params: Context, info: Context, key: string)
    ensures Lookup(ControllerContext(params, info), key)
         == if key == "targetType" && "type" in params then params["type"]
            else if key in info then info[key] else Lookup(params, key)
  {}

  /** The initiator that the controller's context describes. */
  lemma ControllerInitiator(lvolID: string, rs: seq<LvolConnectResp>, params: Context)
    requires rs != []
    requires "type" in params ==> LowerText(params["type"]) == "tcp"
    ensures var c := ControllerContext(params, VolumeInfo(lvolID, rs));
            NewInitiator(c) == Some(Initiator(
              Lookup(c, "targetType"), Endpoints(rs), Plain(rs[0].nqn), Plain(Itoa(rs[0].reconnectDelay)),
              Plain(Itoa(rs[0].nrIoQueues)), Plain(Itoa(rs[0].ctrlLossTmo)),
              Plain(GetLvolIDFromNQN(rs[0].nqn).1), Plain(Itoa(rs[0].nsId))))
  {
    var info := VolumeInfo(lvolID, rs);
    InfoOverrides(params, info, "targetType");
    InfoOverrides(params, info, "connections");
    InfoOverrides(params, info, "nqn");
    InfoOverrides(params, info, "reconnectDelay");
    InfoOverrides(params, info, "nrIoQueues");
    InfoOverrides(params, info, "ctrlLossTmo");
    InfoOverrides(params, info, "model");
    InfoOverrides(params, info, "nsId");
    ConnectionsRoundTrip(Endpoints(rs));
    assert ToLower("tcp") == "tcp";
  }

  /**
   * From the API's answer to Unstage: the stashed file decodes to a context from which Unstage builds the
   * very initiator that Stage used, and that initiator's connections are the API's addresses in order.
   */
  lemma ContextEndToEnd(lvolID: string, rs: seq<LvolConnectResp>, params: Context, parent: string, device: string)
    requires rs != []
    requires "type" in params ==> LowerText(params["type"]) == "tcp"
    ensures var c := ControllerContext(params, VolumeInfo(lvolID, rs));
            var staged := NewInitiator(c["stagingParentPath" := Plain(parent)]);
            var stash := ConvertInterfaceToMap(EncodeContext(StagedContext(c, parent, device)));
            && stash.Some? && NewInitiator(stash.value) == staged
            && staged.Some? && staged.value.connections == Endpoints(rs)
            && staged.value.nqn == Plain(rs[0].nqn)
            && staged.value.model == Plain(GetLvolIDFromNQN(rs[0].nqn).1)
            && staged.value.nsId == Plain(Itoa(rs[0].nsId))
            && Lookup(stash.value, "devicePath") == Plain(device)
  {
    var c := ControllerContext(params, VolumeInfo(lvolID, rs));
    StashRoundTrip(StagedContext(c, parent, device));
    StagedInitiator(c, parent, device);
    ControllerInitiator(lvolID, rs, params);
  }
}
