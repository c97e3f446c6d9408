/** The generated Secret: internal/secrets/target_secret.go. */
module TargetSecret {
  import opened Prelude
  import opened Api

  const MANAGED_BY: string := "surrealdb-credential-operator"
  const OPAQUE: string := "Opaque"
  const KIND: string := "SurrealDBCredential"

  datatype ConnectionData = ConnectionData(
    url: string, namespace: string, database: string, username: string, password: string, level: string)

  /** The Secret the operator wants; its version is the API server's to choose. */
  function BuildTargetSecret(name: string, uid: string, d: ConnectionData): Secret {
    Secret(
      0,
      map["app.kubernetes.io/name" := MANAGED_BY,
          "app.kubernetes.io/managed-by" := MANAGED_BY,
          "surrealdb.seamlezz.com/credential" := name],
      [OwnerReference(GROUP_VERSION, KIND, name, uid, true, true)],
      OPAQUE,
      map["url" := d.url, "namespace" := d.namespace, "database" := d.database, "username" := d.username,
          "password" := d.password, "level" := d.level,
          "SURREAL_URL" := d.url, "SURREAL_NS" := d.namespace, "SURREAL_DB" := d.database,
          "SURREAL_USER" := d.username, "SURREAL_PASS" := d.password])
  }

  /** An owner reference to a credential of this name. */
  predicate Claims(o: OwnerReference, name: string) {
    o.apiVersion == GROUP_VERSION && o.kind == KIND && o.name == name
  }

  predicate IsOwnedByCredential(s: Secret, name: string, uid: string) {
    exists i :: 0 <= i < |s.owners| && Claims(s.owners[i], name) && s.owners[i].uid == uid
  }

  predicate CanManage(existing: Option<Secret>, name: string, uid: string) {
    existing.None? || IsOwnedByCredential(existing.value, name, uid)
  }

  function ExistingPassword(existing: Option<Secret>): Option<string> {
    if existing.None? || "password" !in existing.value.data || existing.value.data["password"] == "" then None
    else Some(existing.value.data["password"])
  }

  /** Owned means: some owner reference has this API version, kind, name and UID, whatever its other fields say. */
  lemma OwnedMeans(s: Secret, name: string, uid: string)
    ensures IsOwnedByCredential(s, name, uid) <==>
            exists o :: o in s.owners && o.apiVersion == "surrealdb.seamlezz.com/v1alpha1" && o.kind == "SurrealDBCredential"
                        && o.name == name && o.uid == uid
  {
    if o :| o in s.owners && o.apiVersion == "surrealdb.seamlezz.com/v1alpha1" && o.kind == "SurrealDBCredential" && o.name == name && o.uid == uid {
      var i :| 0 <= i < |s.owners| && s.owners[i] == o;
      assert Claims(s.owners[i], name);
    }
  }

  method OwnedByCredential(s: Secret, name: string, uid: string) returns (owned: bool)
    ensures owned <==> IsOwnedByCredential(s, name, uid)
  {
    for i := 0 to |s.owners|
      invariant forall k :: 0 <= k < i ==> !(Claims(s.owners[k], name) && s.owners[k].uid == uid)
    {
      if Claims(s.owners[i], name) && s.owners[i].uid == uid {
        return true;
      }
    }
    return false;
  }

  /** The generated Secret belongs to its credential alone, is labelled with it, and gives its password back. */
  lemma BuiltSecretReadsBack(name: string, uid: string, d: ConnectionData, other: string)
    ensures var s := BuildTargetSecret(name, uid, d);
            && (IsOwnedByCredential(s, name, other) <==> other == uid)
            && |s.owners| == 1 && s.owners[0].controller && s.owners[0].blockOwnerDeletion
            && "surrealdb.seamlezz.com/credential" in s.labels && s.labels["surrealdb.seamlezz.com/credential"] == name
            && s.data["password"] == s.data["SURREAL_PASS"] == d.password && s.data["level"] == d.level
            && (ExistingPassword(Some(s)) == if d.password == "" then None else Some(d.password))
  {
    var s := BuildTargetSecret(name, uid, d);
    assert Claims(s.owners[0], name);
  }
}
