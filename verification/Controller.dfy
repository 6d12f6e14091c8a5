/**
 * The controller's CreateVolume and DeleteVolume against a storage backend that itself accepts any number
 * of volumes with one name.
 */
module Controller {
  import opened Strings
  import opened Identifiers
  import opened Nvme

  datatype Place = Place(cluster: string, pool: string, name: string)
  datatype Lvol = Lvol(id: string, place: Place)

  /** The backend's volumes, oldest first. */
  type Backend = seq<Lvol>

  function Find(b: Backend, p: Place): Option<string> {
    if b == [] then None else if b[0].place == p then Some(b[0].id) else Find(b[1..], p)
  }

  predicate Has(b: Backend, p: Place) {
    exists v | v in b :: v.place == p
  }

  predicate Exists(b: Backend, cluster: string, id: string) {
    exists v | v in b :: v.id == id && v.place.cluster == cluster
  }

  function Drop(b: Backend, cluster: string, id: string): (r: Backend)
    ensures forall v :: v in r <==> v in b && !(v.id == id && v.place.cluster == cluster)
  {
    if b == [] then []
    else (if b[0].id == id && b[0].place.cluster == cluster then [] else [b[0]]) + Drop(b[1..], cluster, id)
  }

  /** The backend never hands out an identifier that is in use in the cluster. */
  function Add(b: Backend, id: string, p: Place, o: Outcome): (Backend, bool) {
    if o == Lost || Exists(b, p.cluster, id) then (b, false) else (b + [Lvol(id, p)], o == Ok)
  }

  // ---------- Requests and oracles ----------

  datatype Source = NoSource | FromSnapshot(id: string) | FromVolume(id: string) | BadSource

  datatype CreateReq = CreateReq(name: string, params: map<string, string>, source: Source)

  datatype CreateEnv = CreateEnv(
    client: bool,                // the API client for the request's cluster can be built
    lookupFails: bool,           // the lookup by name fails although the volume is there
    sourceClient: bool,          // the client for the source's cluster can be built
    snapshot: Option<string>,    // the new snapshot's own identifier, if taking it succeeds
    clonePool: string,           // the pool the backend puts a clone in
    newID: string,
    clone: Outcome, prepares: bool, create: Outcome, published: bool, info: bool,
    cleanupClient: bool, cleanup: Outcome)

  datatype DeleteEnv = DeleteEnv(client: bool, unpublished: bool, delete: Outcome)

  datatype Call = Create(req: CreateReq, cenv: CreateEnv) | Delete(volumeID: string, denv: DeleteEnv)

  /** Create locks the volume's name, Delete the volume's identifier. */
  function LockKey(c: Call): string {
    match c
    case Create(req, _) => req.name
    case Delete(id, _) => id
  }

  function Param(req: CreateReq, key: string): string {
    if key in req.params then req.params[key] else ""
  }

  function Wanted(req: CreateReq): Place {
    Place(Param(req, "cluster_id"), Param(req, "pool_name"), req.name)
  }

  function IDFor(cluster: string, req: CreateReq, lvolID: string): string {
    VolumeID(SpdkVolume(cluster, Param(req, "pool_name"), lvolID))
  }

  /** The cluster that the content source's identifier names; none if it does not parse. */
  function SourceCluster(s: Source): Option<string> {
    match s
    case FromSnapshot(id) => (match GetSnapshot(id) case None => None case Some(x) => Some(x.clusterID))
    case FromVolume(id) => (match GetSpdkVol(id) case None => None case Some(x) => Some(x.clusterID))
    case _ => None
  }

  // ---------- CreateVolume ----------

  /** A volume identifier on success. */
  function FromSource(b: Backend, req: CreateReq, env: CreateEnv): (Backend, Option<string>) {
    var cluster := SourceCluster(req.source);
    if cluster.None? || !env.sourceClient then (b, None)
    else if req.source.FromVolume?
            && (env.snapshot.None? || GetSnapshot(SnapshotID(SpdkSnapshot(cluster.value, env.snapshot.value))).None?)
    then (b, None)
    else
      var (after, ok) := Add(b, env.newID, Place(cluster.value, env.clonePool, req.name), env.clone);
      (after, if ok then Some(IDFor(cluster.value, req, env.newID)) else None)
  }

  /** createVolume: an existing volume, a clone, or a new one. */
  function Provision(b: Backend, req: CreateReq, env: CreateEnv): (Backend, Option<string>) {
    var found := if env.lookupFails then None else Find(b, Wanted(req));
    if found.Some? then (b, Some(IDFor(Wanted(req).cluster, req, found.value)))
    else if req.source != NoSource then FromSource(b, req, env)
    else if !env.prepares then (b, None)
    else
      var (after, ok) := Add(b, env.newID, Wanted(req), env.create);
      (after, if ok then Some(IDFor(Wanted(req).cluster, req, env.newID)) else None)
  }

  /** publishVolume: both calls only read the backend. */
  predicate Published(b: Backend, cluster: string, volumeID: string, env: CreateEnv) {
    match GetSpdkVol(volumeID)
    case None => false
    case Some(v) => Exists(b, cluster, v.lvolID) && env.published && env.info
  }

  /** deleteVolume; a failure is ignored by CreateVolume. */
  function CleanUp(b: Backend, volumeID: string, env: CreateEnv): Backend {
    match GetSpdkVol(volumeID)
    case None => b
    case Some(v) => if !env.cleanupClient || env.cleanup == Lost then b else Drop(b, v.clusterID, v.lvolID)
  }

  function CreateVolume(b: Backend, req: CreateReq, env: CreateEnv): (Backend, Option<string>) {
    if "cluster_id" !in req.params || !env.client then (b, None)
    else
      var (after, id) := Provision(b, req, env);
      if id.None? then (after, None)
      else if Published(after, Wanted(req).cluster, id.value, env) then (after, id)
      else (CleanUp(after, id.value, env), None)
  }

  /** DeleteVolume reads the volume before it deletes it, and any failure to read ends the call. */
  function DeleteVolume(b: Backend, volumeID: string, env: DeleteEnv): (Backend, bool) {
    match GetSpdkVol(volumeID)
    case None => (b, false)
    case Some(v) =>
      if !env.client || !env.unpublished || !Exists(b, v.clusterID, v.lvolID) then (b, false)
      else (if env.delete == Lost then b else Drop(b, v.clusterID, v.lvolID), env.delete == Ok)
  }

  // ---------- One volume per name ----------

  ghost predicate Unique(b: Backend) {
    forall i, j | 0 <= i < j < |b| :: b[i].place != b[j].place
  }

  lemma {:induction false} FindExact(b: Backend, p: Place)
    ensures Find(b, p).Some? <==> Has(b, p)
    ensures Find(b, p).Some? ==> Lvol(Find(b, p).value, p) in b
  {
    if b != [] {
      FindExact(b[1..], p);
      assert b == [b[0]] + b[1..];
    }
  }

  /** A place in `b` that the subsequence lacks cannot come back, and order is kept. */
  lemma {:induction false} DropUnique(b: Backend, cluster: string, id: string)
    requires Unique(b)
    ensures Unique(Drop(b, cluster, id))
  {
    if b != [] {
      var rest := Drop(b[1..], cluster, id);
      DropUnique(b[1..], cluster, id);
      forall k | 0 <= k < |rest| ensures rest[k].place != b[0].place {
        assert rest[k] in b[1..];
      }
    }
  }

  /** Adding keeps places unique exactly when the place was free or nothing is added. */
  lemma AddUnique(b: Backend, id: string, p: Place, o: Outcome)
    requires Unique(b)
    ensures Unique(Add(b, id, p, o).0) <==> o == Lost || Exists(b, p.cluster, id) || !Has(b, p)
  {
    var after := Add(b, id, p, o).0;
    if after != b {
      assert after[|b|].place == p;
      if Has(b, p) {
        var v :| v in b && v.place == p;
        var i :| 0 <= i < |b| && b[i] == v;
        assert after[i].place == after[|b|].place;
      } else {
        forall i | 0 <= i < |b| ensures b[i].place != p {
          assert b[i] in b;
        }
      }
    }
  }

  /** The clone, if one is asked for, is put in the cluster and pool of the request. */
  predicate Lands(req: CreateReq, env: CreateEnv) {
    req.source.FromSnapshot? || req.source.FromVolume? ==>
      && SourceCluster(req.source) == Some(Wanted(req).cluster)
      && env.clonePool == Wanted(req).pool
  }

  /** A call that found no volume gets as far as asking the backend for one. */
  predicate Asks(req: CreateReq, env: CreateEnv) {
    match req.source
    case NoSource => env.prepares
    case BadSource => false
    case FromSnapshot(_) => SourceCluster(req.source).Some? && env.sourceClient
    case FromVolume(_) =>
      && SourceCluster(req.source).Some? && env.sourceClient && env.snapshot.Some?
      && GetSnapshot(SnapshotID(SpdkSnapshot(SourceCluster(req.source).value, env.snapshot.value))).Some?
  }

  /** Where the backend puts that volume: a clone goes to its source's cluster. */
  function Destination(req: CreateReq, env: CreateEnv): Place {
    match SourceCluster(req.source)
    case None => Wanted(req)
    case Some(cluster) => Place(cluster, env.clonePool, req.name)
  }

  function Answer(req: CreateReq, env: CreateEnv): Outcome {
    if req.source == NoSource then env.create else env.clone
  }

  /** The call brings a second volume to a place: no volume was found, one is made, and its place was taken. */
  predicate Doubles(b: Backend, req: CreateReq, env: CreateEnv) {
    var p := Destination(req, env);
    && (env.lookupFails || !Has(b, Wanted(req))) && Asks(req, env)
    && Answer(req, env) != Lost && !Exists(b, p.cluster, env.newID) && Has(b, p)
  }

  /** Exactly when looking up and creating, plain or as a clone, leaves two volumes of one name. */
  lemma ProvisionUnique(b: Backend, req: CreateReq, env: CreateEnv)
    requires Unique(b)
    ensures Unique(Provision(b, req, env).0) <==> !Doubles(b, req, env)
  {
    FindExact(b, Wanted(req));
    AddUnique(b, env.newID, Destination(req, env), Answer(req, env));
  }

  /**
   * For a plain request: a second volume of the name is made exactly when the lookup fails, the name is
   * taken, and the request reaches a backend that takes the new identifier.
   */
  lemma FailedLookupDuplicates(b: Backend, req: CreateReq, env: CreateEnv)
    requires Unique(b) && req.source == NoSource
    ensures Unique(Provision(b, req, env).0)
       <==> || !env.lookupFails || !Has(b, Wanted(req)) || !env.prepares || env.create == Lost
            || Exists(b, Wanted(req).cluster, env.newID)
  {
    ProvisionUnique(b, req, env);
  }

  /** The failed publishing of the new volume makes the call delete it again. */
  predicate CleansUp(b: Backend, req: CreateReq, env: CreateEnv) {
    var p := Destination(req, env);
    && Answer(req, env) == Ok
    && !((p.cluster == Wanted(req).cluster || Exists(b, Wanted(req).cluster, env.newID)) && env.published && env.info)
    && ColonFree(SpdkVolume(p.cluster, Wanted(req).pool, env.newID)) && env.cleanupClient && env.cleanup != Lost
  }

  /** Exactly when a whole call leaves two volumes of one name: it makes the second and does not undo it. */
  lemma CreateUnique(b: Backend, req: CreateReq, env: CreateEnv)
    requires Unique(b)
    ensures Unique(CreateVolume(b, req, env).0)
       <==> || "cluster_id" !in req.params || !env.client
            || !Doubles(b, req, env) || CleansUp(b, req, env)
  {
    if "cluster_id" !in req.params || !env.client {
      assert CreateVolume(b, req, env).0 == b;
    } else if Doubles(b, req, env) {
      DoubledUnique(b, req, env);
    } else {
      ProvisionUnique(b, req, env);
      StaysUnique(b, req, env);
    }
  }

  lemma DoubledUnique(b: Backend, req: CreateReq, env: CreateEnv)
    requires Unique(b) && Doubles(b, req, env) && "cluster_id" in req.params && env.client
    ensures Unique(CreateVolume(b, req, env).0) <==> CleansUp(b, req, env)
  {
    DoubledCall(b, req, env);
    var p := Destination(req, env);
    assert Add(b, env.newID, p, Ok).0 == b + [Lvol(env.newID, p)];
    AddUnique(b, env.newID, p, Ok);
  }

  lemma StaysUnique(b: Backend, req: CreateReq, env: CreateEnv)
    requires Unique(b) && Unique(Provision(b, req, env).0)
    ensures Unique(CreateVolume(b, req, env).0)
  {
    var (after, id) := Provision(b, req, env);
    if id.Some? && GetSpdkVol(id.value).Some? {
      DropUnique(after, GetSpdkVol(id.value).value.clusterID, GetSpdkVol(id.value).value.lvolID);
    }
  }

  lemma DoubledCall(b: Backend, req: CreateReq, env: CreateEnv)
    requires Doubles(b, req, env) && "cluster_id" in req.params && env.client
    ensures CreateVolume(b, req, env).0
         == if CleansUp(b, req, env) then b else b + [Lvol(env.newID, Destination(req, env))]
  {
    var p := Destination(req, env);
    var second := Lvol(env.newID, p);
    FindExact(b, Wanted(req));
    assert Provision(b, req, env).0 == b + [second] && second in b + [second];
    DropAppended(b, second);
    PrintedVolume(SpdkVolume(p.cluster, Wanted(req).pool, env.newID));
  }

  lemma {:induction false} DropAppended(b: Backend, v: Lvol)
    requires !Exists(b, v.place.cluster, v.id)
    ensures Drop(b + [v], v.place.cluster, v.id) == b
  {
    var c, id := v.place.cluster, v.id;
    if b == [] {
      assert Drop([v][1..], c, id) == [];
    } else {
      var rest := b[1..];
      assert b[0] in b && !Exists(rest, c, id) by {
        assert forall x | x in rest :: x in b;
      }
      DropAppended(rest, v);
      assert (b + [v])[0] == b[0] && (b + [v])[1..] == rest + [v];
      assert Drop(b + [v], c, id) == [b[0]] + rest;
    }
  }

  /** With an honest lookup a whole call keeps one volume per place, whatever fails in it. */
  lemma CreateKeepsUnique(b: Backend, req: CreateReq, env: CreateEnv)
    requires Unique(b) && !env.lookupFails && Lands(req, env)
    ensures Unique(CreateVolume(b, req, env).0)
  {
    FindExact(b, Wanted(req));
    AddUnique(b, env.newID, Wanted(req), env.create);
    AddUnique(b, env.newID, Wanted(req), env.clone);
    var (after, id) := Provision(b, req, env);
    if id.Some? && GetSpdkVol(id.value).Some? {
      var v := GetSpdkVol(id.value).value;
      DropUnique(after, v.clusterID, v.lvolID);
    }
  }

  /** Nothing that the retry itself needs fails. */
  predicate QuietRetry(env: CreateEnv) {
    env.client && !env.lookupFails && env.published && env.info
  }

  /** A retry of a successful CreateVolume answers with the same volume and creates nothing. */
  lemma CreateRetry(b: Backend, req: CreateReq, env: CreateEnv, retry: CreateEnv)
    requires !env.lookupFails && Lands(req, env) && QuietRetry(retry)
    requires CreateVolume(b, req, env).1.Some?
    ensures CreateVolume(CreateVolume(b, req, env).0, req, retry) == CreateVolume(b, req, env)
  {
    var (after, id) := CreateVolume(b, req, env);
    FindExact(b, Wanted(req));
    if after != b {
      assert after == b + [Lvol(env.newID, Wanted(req))];
      FindAppended(b, Lvol(env.newID, Wanted(req)));
    }
  }

  lemma {:induction false} FindAppended(b: Backend, v: Lvol)
    requires !Has(b, v.place)
    ensures Find(b + [v], v.place) == Some(v.id)
  {
    if b != [] {
      assert b[0] in b && forall x | x in b[1..] :: x in b;
      FindAppended(b[1..], v);
      assert (b + [v])[1..] == b[1..] + [v];
    }
  }

  /** The volume that was found can be deleted by a call that does not manage to publish it. */
  predicate CanCleanUp(req: CreateReq, env: CreateEnv, id: string) {
    ColonFree(SpdkVolume(Wanted(req).cluster, Wanted(req).pool, id)) && env.cleanupClient && env.cleanup != Lost
  }

  /** Exactly when a CreateVolume that finds its volume keeps it, and that it deletes just this one otherwise. */
  lemma FailedRetryDeletes(b: Backend, req: CreateReq, env: CreateEnv, id: string)
    requires Find(b, Wanted(req)) == Some(id) && "cluster_id" in req.params && !env.lookupFails
    ensures CreateVolume(b, req, env).0 == b
       <==> !env.client || (env.published && env.info) || !CanCleanUp(req, env, id)
    ensures CreateVolume(b, req, env).0 in {b, Drop(b, Wanted(req).cluster, id)}
    ensures CreateVolume(b, req, env).0 != b ==> CreateVolume(b, req, env).1 == None
  {
    FindExact(b, Wanted(req));
    PrintedVolume(SpdkVolume(Wanted(req).cluster, Wanted(req).pool, id));
    assert Lvol(id, Wanted(req)) in b && Lvol(id, Wanted(req)) !in Drop(b, Wanted(req).cluster, id);
  }

  /**
   * After a CreateVolume that succeeded, a retry keeps the backend, and with it the volume, exactly when it
   * never starts, publishes, or cannot clean up. Otherwise it deletes the very volume that the first call
   * answered with, and reports an error.
   */
  lemma RetryAfterSuccess(b: Backend, req: CreateReq, first: CreateEnv, retry: CreateEnv)
    requires Unique(b) && !first.lookupFails && Lands(req, first) && !retry.lookupFails
    requires CreateVolume(b, req, first).1.Some?
    ensures var (after, id) := CreateVolume(b, req, first);
            && GetSpdkVol(id.value).Some? && Has(after, Wanted(req))
            && var v := GetSpdkVol(id.value).value;
            && CreateVolume(after, req, retry).0 in {after, Drop(after, v.clusterID, v.lvolID)}
            && (CreateVolume(after, req, retry).0 == after
                <==> || !retry.client || (retry.published && retry.info)
                     || !retry.cleanupClient || retry.cleanup == Lost)
            && (CreateVolume(after, req, retry).0 != after ==>
                  && CreateVolume(after, req, retry).1 == None
                  && !Has(CreateVolume(after, req, retry).0, Wanted(req)))
  {
    var (after, id) := CreateVolume(b, req, first);
    FindExact(b, Wanted(req));
    if after != b {
      assert after == b + [Lvol(first.newID, Wanted(req))];
      FindAppended(b, Lvol(first.newID, Wanted(req)));
    }
    CreateKeepsUnique(b, req, first);
    FindExact(after, Wanted(req));
    var lvol := Find(after, Wanted(req)).value;
    PrintedVolume(SpdkVolume(Wanted(req).cluster, Wanted(req).pool, lvol));
    FailedRetryDeletes(after, req, retry, lvol);
    OnlyOne(after, Wanted(req), lvol);
  }

  /** Without duplicates, dropping the volume that the lookup finds leaves none of the name. */
  lemma OnlyOne(b: Backend, p: Place, id: string)
    requires Unique(b) && Lvol(id, p) in b
    ensures !Has(Drop(b, p.cluster, id), p)
  {
    forall v | v in b && v.place == p ensures v.id == id {
      var i :| 0 <= i < |b| && b[i] == v;
      var j :| 0 <= j < |b| && b[j] == Lvol(id, p);
      assert i == j;
    }
  }

  // ---------- What a call answers and leaves ----------

  /** Exactly the volumes of that identifier in that cluster are gone, and the others as often there as before. */
  lemma {:induction false} DropExact(b: Backend, cluster: string, id: string)
    ensures forall v :: multiset(Drop(b, cluster, id))[v]
                        == if v.id == id && v.place.cluster == cluster then 0 else multiset(b)[v]
  {
    if b != [] {
      DropExact(b[1..], cluster, id);
      assert b == [b[0]] + b[1..];
    }
  }

  /**
   * Exactly when DeleteVolume succeeds, that only the named volume can go, and that it is gone exactly if
   * the delete takes effect. An identifier that does not parse changes nothing.
   */
  lemma DeleteExact(b: Backend, v: SpdkVolume, env: DeleteEnv)
    requires ':' !in v.clusterID && ':' !in v.poolName && ':' !in v.lvolID
    ensures var (after, ok) := DeleteVolume(b, v.clusterID + ":" + v.poolName + ":" + v.lvolID, env);
            && (ok <==> env.client && env.unpublished && env.delete == Ok
                        && exists x | x in b :: x.id == v.lvolID && x.place.cluster == v.clusterID)
            && (forall x: Lvol | !(x.id == v.lvolID && x.place.cluster == v.clusterID) ::
                  multiset(after)[x] == multiset(b)[x])
            && ((forall x | x in after :: !(x.id == v.lvolID && x.place.cluster == v.clusterID))
                <==> || (env.client && env.unpublished && env.delete != Lost)
                     || forall x | x in b :: !(x.id == v.lvolID && x.place.cluster == v.clusterID))
            && (after != b ==> env.client && env.unpublished && env.delete != Lost)
  {
    PrintedVolume(v);
    DropExact(b, v.clusterID, v.lvolID);
  }

  lemma DeleteUnparsed(b: Backend, volumeID: string, env: DeleteEnv)
    requires Count(volumeID, ':') != 2
    ensures DeleteVolume(b, volumeID, env) == (b, false)
  {
    VolumeParsePrint(volumeID);
  }

  /** The place a request asks for. */
  ghost predicate AsksFor(req: CreateReq, p: Place) {
    && "cluster_id" in req.params && p.cluster == req.params["cluster_id"] && p.name == req.name
    && p.pool == (if "pool_name" in req.params then req.params["pool_name"] else "")
  }

  /**
   * A successful CreateVolume answers with cluster, pool and identifier of a volume. One with that name and
   * pool that was found is the answer, and nothing is created. Otherwise exactly one volume was created:
   * for a plain request at the place asked for, for a clone in the cluster its source's identifier names.
   */
  lemma CreateLeaves(b: Backend, req: CreateReq, env: CreateEnv, p: Place)
    requires AsksFor(req, p) && CreateVolume(b, req, env).1.Some?
    ensures var (after, id) := CreateVolume(b, req, env);
            if !env.lookupFails && Has(b, p) then
              after == b && exists v | v in b :: v.place == p && id.value == p.cluster + ":" + p.pool + ":" + v.id
            else
              && (req.source != NoSource ==> SourceCluster(req.source).Some?)
              && var at := if req.source == NoSource then p
                           else Place(SourceCluster(req.source).value, env.clonePool, req.name);
              && after == b + [Lvol(env.newID, at)]
              && id.value == at.cluster + ":" + p.pool + ":" + env.newID
  {
    assert Wanted(req) == p;
    FindExact(b, p);
    if !env.lookupFails && Has(b, p) {
      var v := Lvol(Find(b, p).value, p);
      assert v in b && IDFor(p.cluster, req, v.id) == p.cluster + ":" + p.pool + ":" + v.id;
    }
  }

  /** A new volume can be made and read back under the identifier that is answered. */
  predicate Creates(b: Backend, req: CreateReq, env: CreateEnv) {
    var at := Destination(req, env);
    && Asks(req, env) && Answer(req, env) == Ok && !Exists(b, at.cluster, env.newID)
    && (at.cluster == Wanted(req).cluster || Exists(b, Wanted(req).cluster, env.newID))
    && ColonFree(SpdkVolume(at.cluster, Wanted(req).pool, env.newID))
  }

  /** Exactly when CreateVolume succeeds. */
  lemma CreateSucceeds(b: Backend, req: CreateReq, env: CreateEnv)
    ensures CreateVolume(b, req, env).1.Some?
       <==> && "cluster_id" in req.params && env.client && env.published && env.info
            && match (if env.lookupFails then None else Find(b, Wanted(req)))
               case Some(id) => ColonFree(SpdkVolume(Wanted(req).cluster, Wanted(req).pool, id))
               case None => Creates(b, req, env)
  {
    match (if env.lookupFails then None else Find(b, Wanted(req))) {
      case Some(id) =>
        FindExact(b, Wanted(req));
        PrintedVolume(SpdkVolume(Wanted(req).cluster, Wanted(req).pool, id));
        assert Lvol(id, Wanted(req)) in b;
      case None => NewSucceeds(b, req, env);
    }
  }

  lemma NewSucceeds(b: Backend, req: CreateReq, env: CreateEnv)
    requires env.lookupFails || Find(b, Wanted(req)).None?
    ensures CreateVolume(b, req, env).1.Some?
       <==> "cluster_id" in req.params && env.client && env.published && env.info && Creates(b, req, env)
  {
    var at := Destination(req, env);
    var (after, id) := Provision(b, req, env);
    if id.Some? {
      assert Asks(req, env) && Answer(req, env) == Ok && !Exists(b, at.cluster, env.newID);
      assert after == b + [Lvol(env.newID, at)] && Lvol(env.newID, at) in after;
      assert id.value == VolumeID(SpdkVolume(at.cluster, Wanted(req).pool, env.newID));
      PrintedVolume(SpdkVolume(at.cluster, Wanted(req).pool, env.newID));
      ExistsAppended(b, Lvol(env.newID, at), Wanted(req).cluster);
    }
  }

  lemma ExistsAppended(b: Backend, v: Lvol, cluster: string)
    ensures Exists(b + [v], cluster, v.id) <==> v.place.cluster == cluster || Exists(b, cluster, v.id)
  {
    assert v in b + [v];
  }

  /** A CreateVolume that fails leaves what was there, with at most the new volume more or the found one less. */
  lemma CreateFails(b: Backend, req: CreateReq, env: CreateEnv)
    requires CreateVolume(b, req, env).1.None?
    ensures var after := CreateVolume(b, req, env).0;
            forall v | v in b && !(v.id == env.newID && v.place.cluster == Destination(req, env).cluster)
                    && !(!env.lookupFails && Find(b, Wanted(req)) == Some(v.id)
                         && v.place.cluster == Wanted(req).cluster) :: v in after
    ensures forall v | v in CreateVolume(b, req, env).0 && v !in b :: v == Lvol(env.newID, Destination(req, env))
  {
    var (after, id) := Provision(b, req, env);
    if id.Some? {
      if !env.lookupFails && Find(b, Wanted(req)).Some? {
        PrintedVolume(SpdkVolume(Wanted(req).cluster, Wanted(req).pool, Find(b, Wanted(req)).value));
      } else {
        PrintedVolume(SpdkVolume(Destination(req, env).cluster, Wanted(req).pool, env.newID));
      }
    }
  }

  /** The cluster of a clone is the one its source's identifier starts with. */
  lemma SourceClusterExact(cluster: string, pool: string, id: string)
    requires ':' !in cluster && ':' !in pool && ':' !in id
    ensures SourceCluster(FromSnapshot(cluster + ":" + id)) == Some(cluster)
    ensures SourceCluster(FromVolume(cluster + ":" + pool + ":" + id)) == Some(cluster)
  {
    SnapshotPrintParse(SpdkSnapshot(cluster, id));
    VolumePrintParse(SpdkVolume(cluster, pool, id));
  }

  /** Deleting a volume that is gone is an error: the read before it fails first. */
  lemma SecondDeleteFails(b: Backend, volumeID: string, first: DeleteEnv, second: DeleteEnv)
    requires DeleteVolume(b, volumeID, first).1
    ensures DeleteVolume(DeleteVolume(b, volumeID, first).0, volumeID, second)
         == (DeleteVolume(b, volumeID, first).0, false)
  {}
}
