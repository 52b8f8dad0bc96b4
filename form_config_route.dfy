/**
 * The form-configuration route (src/app/api/form-config/route.js): `GET`
 * serves the active configuration, bootstrapping a version-1 default on first
 * use; `POST` publishes a new version and purges the narrative-template cache.
 *
 * Each Supabase call that can fail is a boolean fault parameter: the model
 * says what the route does for every combination of outcomes. Requests are
 * taken one at a time.
 */
module FormConfigRoute {
  import opened Results
  import opened Text
  import opened FormModel
  import opened Database

  /** What `GET` answers: `{ config, version, id, fromDatabase }`. */
  datatype ConfigResponse = ConfigResponse(config: FormConfig, version: int, id: Option<nat>, fromDatabase: bool)

  /**
   * Which of `GET`'s store calls fail: the active-config query failing with a
   * code other than PGRST116 (or any throw), and the bootstrap insert.
   */
  datatype GetFaults = GetFaults(selectFails: bool, insertFails: bool)

  const BootstrapNotes := "Default configuration (auto-created)"

  /** The answer built from `DEFAULT_FORM_CONFIG` when the store cannot serve one. */
  function Fallback(defaultConfig: FormConfig): ConfigResponse {
    ConfigResponse(defaultConfig, 1, None, false)
  }

  /**
   * `GET /api/form-config`. `.single()` on the active rows reports PGRST116
   * both for no row and for several, so both lead to the bootstrap insert;
   * in a valid store only the first can happen.
   */
  method Get(db: Store, defaultConfig: FormConfig, faults: GetFaults) returns (resp: ConfigResponse)
    requires db.Valid()
    modifies db
    ensures db.Valid()
    ensures faults.selectFails ==>
      resp == Fallback(defaultConfig) && db.configs == old(db.configs) && db.nextId == old(db.nextId)
    ensures !faults.selectFails && |ActiveRecords(old(db.configs))| == 1 ==>
      var active := ActiveRecords(old(db.configs))[0];
      resp == ConfigResponse(active.config, active.version, Some(active.id), true)
      && db.configs == old(db.configs) && db.nextId == old(db.nextId)
    ensures !faults.selectFails && ActiveRecords(old(db.configs)) == [] && faults.insertFails ==>
      resp == Fallback(defaultConfig) && db.configs == old(db.configs) && db.nextId == old(db.nextId)
    ensures !faults.selectFails && ActiveRecords(old(db.configs)) == [] && !faults.insertFails ==>
      var boot := ConfigRecord(old(db.nextId), 1, defaultConfig, true, None, BootstrapNotes);
      db.configs == old(db.configs) + [boot]
      && ActiveRecords(db.configs) == [boot]
      && resp == ConfigResponse(defaultConfig, 1, Some(boot.id), true)
    ensures db.templates == old(db.templates)
  {
    if faults.selectFails {
      return Fallback(defaultConfig);
    }
    var active := ActiveRecords(db.configs);
    if |active| == 1 {
      return ConfigResponse(active[0].config, active[0].version, Some(active[0].id), true);
    }
    if faults.insertFails {
      return Fallback(defaultConfig);
    }
    ghost var before := db.configs;
    var rec := db.InsertConfig(1, defaultConfig, true, None, BootstrapNotes);
    ActiveOfAppend(before, [rec]);
    assert ActiveRecords([rec]) == [rec] + ActiveRecords([]);
    resp := ConfigResponse(rec.config, rec.version, Some(rec.id), true);
  }

  /**
   * Which of `POST`'s store calls fail: the max-version query (its error is
   * ignored and reads as "no row"), deactivate-all, the insert, the safety
   * pass and the template purge.
   */
  datatype PostFaults = PostFaults(
    latestReadFails: bool, deactivateFails: bool, insertFails: bool, safetyFails: bool, deleteFails: bool)

  datatype PublishResponse =
    | Unauthorized
    | ConfigRequired
    | DeactivateFailed
    | SaveFailed
    | Saved(record: ConfigRecord)
  {
    function Status(): nat {
      match this
      case Unauthorized => 401
      case ConfigRequired => 400
      case DeactivateFailed => 500
      case SaveFailed => 500
      case Saved(_) => 200
    }
  }

  /** `(latestConfig?.version || 0) + 1`. */
  function NewVersion(rs: seq<ConfigRecord>, readFails: bool): int {
    (if readFails || rs == [] then 0 else MaxVersion(rs)) + 1
  }

  /** `notes || \`Version ${newVersion}\``. */
  function NotesOrDefault(notes: Option<string>, version: int): string {
    if notes.Some? && notes.value != "" then notes.value else "Version " + IntToString(version)
  }

  /** Once the max-version query succeeds, the new version exceeds every stored one; on an empty table it is 1. */
  lemma NewVersionIsFresh(rs: seq<ConfigRecord>)
    ensures forall k :: 0 <= k < |rs| ==> rs[k].version < NewVersion(rs, false)
    ensures rs == [] ==> NewVersion(rs, false) == 1
  {
    if rs != [] {
      MaxVersionIsMax(rs);
    }
  }

  /** `POST /api/form-config`. */
  method Post(db: Store, user: Option<string>, config: Option<FormConfig>, notes: Option<string>, faults: PostFaults)
    returns (resp: PublishResponse)
    requires db.Valid()
    modifies db
    ensures db.Valid()
    ensures user.None? ==> resp == Unauthorized && db.configs == old(db.configs) && db.templates == old(db.templates)
    ensures user.Some? && config.None? ==>
      resp == ConfigRequired && db.configs == old(db.configs) && db.templates == old(db.templates)
    ensures user.Some? && config.Some? && faults.deactivateFails ==>
      resp == DeactivateFailed && db.configs == old(db.configs) && db.templates == old(db.templates)
    ensures user.Some? && config.Some? && !faults.deactivateFails && faults.insertFails ==>
      resp == SaveFailed && db.configs == Deactivated(old(db.configs)) && ActiveRecords(db.configs) == []
      && db.templates == old(db.templates)
    ensures user.Some? && config.Some? && !faults.deactivateFails && !faults.insertFails ==>
      var version := NewVersion(old(db.configs), faults.latestReadFails);
      var rec := ConfigRecord(old(db.nextId), version, config.value, true, user, NotesOrDefault(notes, version));
      resp == Saved(rec)
      && db.configs == Deactivated(old(db.configs)) + [rec]
      && ActiveRecords(db.configs) == [rec]
      && (!faults.latestReadFails ==> forall k :: 0 <= k < |old(db.configs)| ==> old(db.configs)[k].version < version)
      && db.templates == (if faults.deleteFails then old(db.templates) else map[])
  {
    if user.None? {
      return Unauthorized;
    }
    if config.None? {
      return ConfigRequired;
    }
    var newVersion := NewVersion(db.configs, faults.latestReadFails);
    NewVersionIsFresh(db.configs);
    if faults.deactivateFails {
      return DeactivateFailed;
    }
    ghost var before := db.configs;
    db.DeactivateAll();
    DeactivatedHasNoActive(before);
    if faults.insertFails {
      return SaveFailed;
    }
    var rec := db.InsertConfig(newVersion, config.value, true, user, NotesOrDefault(notes, newVersion));
    if !faults.safetyFails {
      SafetyPassIsNoOp(before, rec);
      db.DeactivateAllExcept(rec.id);
    }
    PublishedIsSoleActive(before, rec);
    if !faults.deleteFails {
      PurgeRemovesAll(db.templates);
      db.DeleteTemplatesExcept(NilId);
    }
    resp := Saved(rec);
  }
}
