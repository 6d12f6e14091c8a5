/** Volume and snapshot identifiers, NVMe qualified names and transport addresses: printers and parsers. */
module Identifiers {
  import opened Strings

  datatype SpdkVolume = SpdkVolume(clusterID: string, poolName: string, lvolID: string)
  datatype SpdkSnapshot = SpdkSnapshot(clusterID: string, snapshotID: string)

  function VolumeID(v: SpdkVolume): string {
    v.clusterID + ":" + v.poolName + ":" + v.lvolID
  }

  function SnapshotID(s: SpdkSnapshot): string {
    s.clusterID + ":" + s.snapshotID
  }

  function GetSpdkVol(csiVolumeID: string): Option<SpdkVolume> {
    var ids := Split(csiVolumeID, ":");
    if |ids| == 3 then Some(SpdkVolume(ids[0], ids[1], ids[2])) else None
  }

  function GetSnapshot(csiSnapshotID: string): Option<SpdkSnapshot> {
    var ids := Split(csiSnapshotID, ":");
    if |ids| == 2 then Some(SpdkSnapshot(ids[0], ids[1])) else None
  }

  lemma JoinThree(a: string, b: string, c: string)
    ensures Join([a, b, c], ":") == a + ":" + b + ":" + c
  {
    assert [a, b, c][1..] == [b, c] && [b, c][1..] == [c];
    assert Join([b, c], ":") == b + ":" + c;
    assert a + ":" + (b + ":" + c) == a + ":" + b + ":" + c;
  }

  lemma JoinTwo(a: string, b: string)
    ensures Join([a, b], ":") == a + ":" + b
  {
    assert [a, b][1..] == [b];
  }

  /** A volume identifier parses exactly when it has two colons, and printing the fields restores it. */
  lemma VolumeParsePrint(id: string)
    ensures GetSpdkVol(id).Some? <==> Count(id, ':') == 2
    ensures GetSpdkVol(id).Some? ==> VolumeID(GetSpdkVol(id).value) == id
  {
    SplitCount(id, ':');
    var ids := Split(id, ":");
    if |ids| == 3 {
      SplitJoin(id, ":");
      assert ids == [ids[0], ids[1], ids[2]];
      JoinThree(ids[0], ids[1], ids[2]);
    }
  }

  /** A printed volume identifier parses back to its fields exactly when no field holds a colon. */
  lemma VolumePrintParse(v: SpdkVolume)
    ensures GetSpdkVol(VolumeID(v)) == Some(v)
       <==> ':' !in v.clusterID && ':' !in v.poolName && ':' !in v.lvolID
  {
    var fields := [v.clusterID, v.poolName, v.lvolID];
    JoinThree(v.clusterID, v.poolName, v.lvolID);
    JoinSplit(fields, ':');
    var ids := Split(VolumeID(v), ":");
    assert |ids| == 3 ==> ids == [ids[0], ids[1], ids[2]];
    assert fields[0] in fields && fields[1] in fields && fields[2] in fields;
  }

  predicate ColonFree(v: SpdkVolume) {
    ':' !in v.clusterID && ':' !in v.poolName && ':' !in v.lvolID
  }

  /** A printed volume identifier with a colon in some field does not parse to anything else either. */
  lemma PrintedVolume(v: SpdkVolume)
    ensures GetSpdkVol(VolumeID(v)) == if ColonFree(v) then Some(v) else None
  {
    VolumePrintParse(v);
    VolumeParsePrint(VolumeID(v));
    CountFields(v.clusterID, v.poolName + ":" + v.lvolID);
    CountFields(v.poolName, v.lvolID);
    CountZero(v.clusterID, ':');
    CountZero(v.poolName, ':');
    CountZero(v.lvolID, ':');
    assert VolumeID(v) == v.clusterID + ":" + (v.poolName + ":" + v.lvolID);
  }

  lemma CountFields(a: string, b: string)
    ensures Count(a + ":" + b, ':') == Count(a, ':') + 1 + Count(b, ':')
  {
    CountAppend(a + ":", b, ':');
    CountAppend(a, ":", ':');
    assert Count(":", ':') == 1;
  }

  lemma SnapshotParsePrint(id: string)
    ensures GetSnapshot(id).Some? <==> Count(id, ':') == 1
    ensures GetSnapshot(id).Some? ==> SnapshotID(GetSnapshot(id).value) == id
  {
    SplitCount(id, ':');
    var ids := Split(id, ":");
    if |ids| == 2 {
      SplitJoin(id, ":");
      assert ids == [ids[0], ids[1]];
      JoinTwo(ids[0], ids[1]);
    }
  }

  lemma SnapshotPrintParse(s: SpdkSnapshot)
    ensures GetSnapshot(SnapshotID(s)) == Some(s) <==> ':' !in s.clusterID && ':' !in s.snapshotID
  {
    var fields := [s.clusterID, s.snapshotID];
    JoinTwo(s.clusterID, s.snapshotID);
    JoinSplit(fields, ':');
    var ids := Split(SnapshotID(s), ":");
    assert |ids| == 2 ==> ids == [ids[0], ids[1]];
    assert fields[0] in fields && fields[1] in fields;
  }

  // ---------- NVMe qualified names ----------

  const LVOL_SEPARATOR: string := ":lvol:"

  function Nqn(prefix: string, cluster: string, lvol: string): string {
    prefix + ":" + cluster + LVOL_SEPARATOR + lvol
  }

  /** (cluster, lvol) of a qualified name, or two empty strings. */
  function GetLvolIDFromNQN(nqn: string): (string, string) {
    var parts := Split(nqn, LVOL_SEPARATOR);
    if |parts| > 1 then
      var subparts := Split(parts[0], ":");
      (subparts[|subparts| - 1], parts[1])
    else ("", "")
  }

  lemma LastField(prefix: string, cluster: string)
    requires ':' !in cluster
    ensures var subparts := Split(prefix + ":" + cluster, ":"); subparts[|subparts| - 1] == cluster
    decreases |prefix|
  {
    var s := prefix + ":" + cluster;
    var i := Index(s, ":");
    assert s[|prefix|..|prefix| + 1] == ":";
    assert OccursAt(s, ":", |prefix|);
    if i == |prefix| {
      assert s[i + 1..] == cluster;
      NoSplit(cluster, ':');
    } else {
      assert s[i + 1..] == prefix[i + 1..] + ":" + cluster;
      LastField(prefix[i + 1..], cluster);
    }
  }

  /**
   * Where the separator is first found in a printed name: at its own place, or, because the separator
   * overlaps itself by one colon, five characters earlier when the cluster is the word "lvol".
   */
  lemma SeparatorPosition(prefix: string, cluster: string, lvol: string)
    requires ':' !in cluster && !Contains(prefix + ":" + cluster, LVOL_SEPARATOR)
    ensures Index(Nqn(prefix, cluster, lvol), LVOL_SEPARATOR)
         == if cluster == "lvol" then |prefix| else |prefix| + 1 + |cluster|
  {
    var head := prefix + ":" + cluster;
    var s := Nqn(prefix, cluster, lvol);
    var sep := LVOL_SEPARATOR;
    assert s == head + sep + lvol;
    assert s[|head|..|head| + 6] == sep;
    assert OccursAt(s, sep, |head|);
    forall i | 0 <= i < |head| && OccursAt(s, sep, i) ensures cluster == "lvol" && i == |prefix| {
      if i + 6 <= |head| {
        assert head[i..i + 6] == s[i..i + 6];
        assert OccursAt(head, sep, i);
        assert false;
      }
      var d := |head| - i;
      assert s[i..i + 6][d] == s[|head|] == ':';
      assert d == 5;
      assert s[i..i + 6][0] == head[i] && s[i..i + 6][1] == head[i + 1] && s[i..i + 6][2] == head[i + 2];
      assert s[i..i + 6][3] == head[i + 3] && s[i..i + 6][4] == head[i + 4];
      assert head[i] == ':' && i <= |prefix|;
      assert head[|prefix|] == ':';
      assert cluster == head[i + 1..] == "lvol";
    }
    if cluster == "lvol" {
      assert s[|prefix|..|prefix| + 6] == sep;
      assert OccursAt(s, sep, |prefix|);
    }
  }

  /**
   * Parsing undoes printing for every colon-free cluster and separator-free parts, except for the one
   * cluster name that the separator swallows.
   */
  lemma NqnRoundTrip(prefix: string, cluster: string, lvol: string)
    requires ':' !in cluster
    requires !Contains(prefix + ":" + cluster, LVOL_SEPARATOR) && !Contains(lvol, LVOL_SEPARATOR)
    ensures GetLvolIDFromNQN(Nqn(prefix, cluster, lvol)) == (cluster, lvol) <==> cluster != "lvol"
  {
    var sep := LVOL_SEPARATOR;
    var s := Nqn(prefix, cluster, lvol);
    SeparatorPosition(prefix, cluster, lvol);
    var i := Index(s, sep);
    var rest := s[i + 6..];
    if cluster != "lvol" {
      assert s[..i] == prefix + ":" + cluster && rest == lvol;
      LastField(prefix, cluster);
      assert Index(lvol, sep) < 0 && Split(lvol, sep) == [lvol];
    } else {
      assert rest == "lvol:" + lvol;
      var j := Index(rest, sep);
      assert Split(rest, sep)[0] == if j < 0 then rest else rest[..j];
      assert j >= 0 ==> |rest| >= j + 6;
      assert |rest| == |lvol| + 5;
      assert Split(rest, sep)[0] != lvol;
    }
  }

  // ---------- Transport addresses ----------

  const TRADDR: string := "traddr="

  /** The value of the first comma-separated part that starts with "traddr=", or the empty string. */
  function ParseAddress(address: string): string {
    FirstTraddr(Split(address, ","))
  }

  function FirstTraddr(parts: seq<string>): string {
    if parts == [] then ""
    else if TRADDR <= parts[0] then parts[0][|TRADDR|..]
    else FirstTraddr(parts[1..])
  }

  /** The address line that `nvme list-subsys` prints for a controller. */
  function AddressLine(ip: string, port: int): string {
    TRADDR + ip + "," + "trsvcid=" + Itoa(port)
  }

  lemma AddressRoundTrip(ip: string, port: int)
    requires ',' !in ip
    ensures ParseAddress(AddressLine(ip, port)) == ip
  {
    var head, rest := TRADDR + ip, "trsvcid=" + Itoa(port);
    FirstOfOneChar(head, ',', rest);
    SplitFirst(head, ",", rest);
    assert AddressLine(ip, port) == head + "," + rest;
  }
}
