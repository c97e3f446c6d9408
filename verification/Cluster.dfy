/**
 * The stores a credential pass works on: the Kubernetes objects with their API rules, and the
 * SurrealDB user table.
 *
 * API rules: create fails on an existing name; update fails on a stale resource version; every write
 * that changes an object gets a fresh version, and one that changes nothing leaves it alone; spec and
 * status are written separately; a deleting object goes away with its last finalizer.
 */
module Cluster {
  import opened Prelude
  import opened Platform
  import opened Api
  import opened Queries
  import opened Server
  import opened TargetSecret
  import Rotation

  const FINALIZER: string := "surrealdb.seamlezz.com/credential-finalizer"
  const FORCE_CLEANUP: string := "surrealdb.seamlezz.com/force-cleanup"

  /** `revision` is the next resource version; `uids` are those already given out. */
  datatype World = World(
    credentials: map<NamespacedName, Credential>,
    secrets: map<NamespacedName, Secret>,
    policies: map<NamespacedName, PolicySpec>,
    providers: map<string, ProviderSpec>,
    users: Users,
    uids: set<string>,
    revision: nat)

  // ----- Secrets -----

  function StoreSecret(w: World, k: NamespacedName, s: Secret): World {
    if k in w.secrets && w.secrets[k].(version := s.version) == s then w
    else w.(secrets := w.secrets[k := s.(version := w.revision)], revision := w.revision + 1)
  }

  function TryCreateSecret(w: World, k: NamespacedName, s: Secret): Option<World> {
    if k in w.secrets then None else Some(StoreSecret(w, k, s))
  }

  function TryUpdateSecret(w: World, k: NamespacedName, s: Secret): Option<World> {
    if k !in w.secrets || w.secrets[k].version != s.version then None else Some(StoreSecret(w, k, s))
  }

  /** Reads the Secret and deletes it if the credential owns it. */
  function DeleteOwnedSecret(w: World, k: NamespacedName, name: string, uid: string): World {
    if k in w.secrets && IsOwnedByCredential(w.secrets[k], name, uid) then w.(secrets := w.secrets - {k}) else w
  }

  // ----- credentials -----

  function StoreCredential(w: World, k: NamespacedName, c: Credential): World
    requires k in w.credentials
  {
    if c.deleting && c.finalizers == {} then w.(credentials := w.credentials - {k})
    else if w.credentials[k].(version := c.version) == c then w
    else w.(credentials := w.credentials[k := c.(version := w.revision)], revision := w.revision + 1)
  }

  /** Timestamps are stored in whole seconds. */
  function StoredStatus(st: CredentialStatus): CredentialStatus {
    st.(lastRotation := Rotation.TruncateTime(st.lastRotation), nextRotation := Rotation.TruncateTime(st.nextRotation))
  }

  predicate IsFresh(w: World, k: NamespacedName, c: Credential) {
    k in w.credentials && w.credentials[k].version == c.version
  }

  /** Update of everything but the status. */
  function TryUpdateObject(w: World, k: NamespacedName, c: Credential): Option<World> {
    if !IsFresh(w, k, c) then None
    else
      var before := w.credentials[k];
      Some(StoreCredential(w, k, c.(uid := before.uid, deleting := before.deleting, status := before.status)))
  }

  /** Update of the status alone. */
  function TryUpdateStatus(w: World, k: NamespacedName, c: Credential): Option<World> {
    if !IsFresh(w, k, c) then None
    else Some(StoreCredential(w, k, w.credentials[k].(status := StoredStatus(c.status))))
  }

  /** What an object update leaves behind, field by field. */
  lemma ObjectWriteEffect(w: World, k: NamespacedName, c: Credential, v: World)
    requires TryUpdateObject(w, k, c) == Some(v)
    ensures v.secrets == w.secrets && v.users == w.users && v.policies == w.policies && v.providers == w.providers
    ensures w.revision <= v.revision
    ensures forall j :: j != k ==> Lookup(v.credentials, j) == Lookup(w.credentials, j)
    ensures k !in v.credentials <==> w.credentials[k].deleting && c.finalizers == {}
    ensures k in v.credentials ==>
              var d := v.credentials[k];
              && d.uid == w.credentials[k].uid && d.deleting == w.credentials[k].deleting && d.status == w.credentials[k].status
              && d.finalizers == c.finalizers && d.annotations == c.annotations && d.spec == c.spec
  {
    var before := w.credentials[k];
    var d := c.(uid := before.uid, deleting := before.deleting, status := before.status);
    assert v == StoreCredential(w, k, d);
    if d.deleting && d.finalizers == {} {
    } else if before.(version := d.version) == d {
    } else {
      assert v.credentials[k] == d.(version := w.revision);
    }
  }

  /** What a status update leaves behind: everything but the status and the version. */
  lemma StatusWriteEffect(w: World, k: NamespacedName, c: Credential, v: World)
    requires TryUpdateStatus(w, k, c) == Some(v)
    ensures v.secrets == w.secrets && v.users == w.users && v.policies == w.policies && v.providers == w.providers
    ensures w.revision <= v.revision
    ensures forall j :: j != k ==> Lookup(v.credentials, j) == Lookup(w.credentials, j)
    ensures k !in v.credentials <==> w.credentials[k].deleting && w.credentials[k].finalizers == {}
    ensures k in v.credentials ==>
              v.credentials[k] == w.credentials[k].(status := StoredStatus(c.status), version := v.credentials[k].version)
  {
  }

  // ----- SurrealDB -----

  /** Sends the definition of a user, and says whether the server did all of it. */
  function AskToDefine(lib: Libraries, w: World, u: RemoteUser, password: string, roles: seq<Role>): (World, bool) {
    var answer := Ask(u.endpoint, w.users, DefineUserQuery(lib, u.target, u.username, password, roles));
    (w.(users := answer.0), answer.1)
  }

  function AskToRemove(w: World, u: RemoteUser): (World, bool) {
    var answer := Ask(u.endpoint, w.users, RemoveUserQuery(u.target, u.username));
    (w.(users := answer.0), answer.1)
  }

  // ----- faults -----

  /** A call is answered; or lost without effect; or takes effect but reports failure. */
  datatype Fault = NoFault | Lost | Unacknowledged

  /** What a call leaves behind, and whether its caller sees success. */
  function Answer(w: World, outcome: (World, bool), fault: Fault): (World, bool) {
    if fault.Lost? then (w, false) else (outcome.0, outcome.1 && fault.NoFault?)
  }

  /** The same of a write that the API server may refuse as a whole. */
  function Attempt(w: World, result: Option<World>, fault: Fault): (World, bool) {
    if result.None? || fault.Lost? then (w, false) else (result.value, fault.NoFault?)
  }

  // ----- everybody else -----

  datatype Edit =
    | PutSecret(key: NamespacedName, secret: Secret)
    | DropSecret(key: NamespacedName)
    | PutPolicy(key: NamespacedName, policy: PolicySpec)
    | DropPolicy(key: NamespacedName)
    | PutProvider(provider: string, providerSpec: ProviderSpec)
    | DropProvider(provider: string)
    | CreateCredential(key: NamespacedName, uid: string, finalizers: set<string>, annotations: map<string, string>, spec: CredentialSpec)
    | EditCredential(key: NamespacedName, finalizers: set<string>, annotations: map<string, string>, spec: CredentialSpec)
    | DeleteCredential(key: NamespacedName)
    | PutUser(user: RemoteUser, login: Login)
    | DropUser(user: RemoteUser)

  const BLANK: CredentialStatus := CredentialStatus(0, None, "", "", "", None, None, "", map[])

  /** A deleting object takes no new finalizers; a new spec starts a new generation. */
  function Edited(c: Credential, finalizers: set<string>, annotations: map<string, string>, spec: CredentialSpec): Credential {
    c.(finalizers := if c.deleting then finalizers * c.finalizers else finalizers,
       annotations := annotations,
       spec := spec,
       generation := if spec == c.spec then c.generation else c.generation + 1)
  }

  function Apply(w: World, e: Edit): World {
    match e
    case PutSecret(key, secret) => StoreSecret(w, key, secret)
    case DropSecret(key) => w.(secrets := w.secrets - {key})
    case PutPolicy(key, policy) => w.(policies := w.policies[key := policy])
    case DropPolicy(key) => w.(policies := w.policies - {key})
    case PutProvider(name, spec) => w.(providers := w.providers[name := spec])
    case DropProvider(name) => w.(providers := w.providers - {name})
    case CreateCredential(key, uid, finalizers, annotations, spec) =>
      if key in w.credentials || uid in w.uids then w
      else w.(credentials := w.credentials[key := Credential(uid, w.revision, 1, false, finalizers, annotations, spec, BLANK)],
              uids := w.uids + {uid},
              revision := w.revision + 1)
    case EditCredential(key, finalizers, annotations, spec) =>
      if key !in w.credentials then w
      else StoreCredential(w, key, Edited(w.credentials[key], finalizers, annotations, spec))
    case DeleteCredential(key) =>
      if key !in w.credentials then w
      else if w.credentials[key].finalizers == {} then w.(credentials := w.credentials - {key})
      else StoreCredential(w, key, w.credentials[key].(deleting := true))
    case PutUser(user, login) => w.(users := w.users[user := login])
    case DropUser(user) => w.(users := w.users - {user})
  }
}
