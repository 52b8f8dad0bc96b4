/**
 * The two tables the routes read and write: `form_configs` (versioned
 * questionnaire configurations, one of them meant to be active) and
 * `narrative_templates` (generated narrative templates keyed by the structural
 * fingerprint of a configuration, unique on `form_config_hash`).
 *
 * The `Store` class holds both tables; its methods are the table operations
 * the routes issue, one Supabase query each. A record id is drawn from a
 * counter that starts at 1, so the all-zero UUID the routes filter on is
 * the id 0.
 */
module Database {
  import opened Results
  import opened JsValues
  import opened FormModel

  datatype ConfigRecord = ConfigRecord(
    id: nat,
    version: int,
    config: FormConfig,
    isActive: bool,
    createdBy: Option<string>,
    notes: string)

  /** The entries of a `template_sections` JSON object, in key order. */
  type Sections = seq<(string, Value)>

  datatype TemplateRecord = TemplateRecord(id: nat, hash: string, sections: Sections)

  /** The id written `00000000-0000-0000-0000-000000000000` in the routes. */
  const NilId: nat := 0

  /** `select ... eq('is_active', true)`, in table order. */
  function ActiveRecords(rs: seq<ConfigRecord>): (act: seq<ConfigRecord>)
    ensures |act| <= |rs|
    ensures forall r :: r in act ==> r in rs && r.isActive
  {
    if rs == [] then []
    else (if rs[0].isActive then [rs[0]] else []) + ActiveRecords(rs[1..])
  }

  /** `update({ is_active: false }).eq('is_active', true)`. */
  function Deactivated(rs: seq<ConfigRecord>): seq<ConfigRecord> {
    seq(|rs|, k requires 0 <= k < |rs| => rs[k].(isActive := false))
  }

  /** `update({ is_active: false }).neq('id', keep).eq('is_active', true)`. */
  function DeactivatedExcept(rs: seq<ConfigRecord>, keep: nat): seq<ConfigRecord> {
    seq(|rs|, k requires 0 <= k < |rs| => if rs[k].id != keep then rs[k].(isActive := false) else rs[k])
  }

  /** The version `order('version', { ascending: false }).limit(1)` reads. */
  function MaxVersion(rs: seq<ConfigRecord>): int
    requires rs != []
  {
    if |rs| == 1 then rs[0].version
    else var m := MaxVersion(rs[1..]); if rs[0].version > m then rs[0].version else m
  }

  /** The table after a delete of every template whose id is not `keep`. */
  function TemplatesWithId(ts: map<string, TemplateRecord>, keep: nat): map<string, TemplateRecord> {
    map h | h in ts && ts[h].id == keep :: ts[h]
  }

  ghost predicate IdsBelow(rs: seq<ConfigRecord>, bound: nat) {
    forall k :: 0 <= k < |rs| ==> rs[k].id < bound
  }

  ghost predicate DistinctIds(rs: seq<ConfigRecord>) {
    forall i, j :: 0 <= i < j < |rs| ==> rs[i].id != rs[j].id
  }

  // ----- Properties of the table operations -----

  lemma {:induction false} ActiveOfAppend(a: seq<ConfigRecord>, b: seq<ConfigRecord>)
    ensures ActiveRecords(a + b) == ActiveRecords(a) + ActiveRecords(b)
  {
    if a == [] {
      assert a + b == b;
    } else {
      assert (a + b)[1..] == a[1..] + b;
      ActiveOfAppend(a[1..], b);
    }
  }

  lemma {:induction false} DeactivatedHasNoActive(rs: seq<ConfigRecord>)
    ensures ActiveRecords(Deactivated(rs)) == []
  {
    if rs != [] {
      assert Deactivated(rs)[1..] == Deactivated(rs[1..]);
      DeactivatedHasNoActive(rs[1..]);
    }
  }

  /** After deactivating every record and appending an active one, that one is the only active record. */
  lemma PublishedIsSoleActive(rs: seq<ConfigRecord>, rec: ConfigRecord)
    requires rec.isActive
    ensures ActiveRecords(Deactivated(rs) + [rec]) == [rec]
  {
    ActiveOfAppend(Deactivated(rs), [rec]);
    DeactivatedHasNoActive(rs);
    assert ActiveRecords([rec]) == [rec] + ActiveRecords([]);
  }

  /** Deactivation only clears the flag: every other column is kept. */
  lemma DeactivatedKeepsData(rs: seq<ConfigRecord>)
    ensures |Deactivated(rs)| == |rs|
    ensures forall k :: 0 <= k < |rs| ==>
      var d := Deactivated(rs)[k];
      !d.isActive && d.id == rs[k].id && d.version == rs[k].version && d.config == rs[k].config
      && d.createdBy == rs[k].createdBy && d.notes == rs[k].notes
  {
  }

  /** The safety pass after a successful deactivate-all changes nothing. */
  lemma SafetyPassIsNoOp(rs: seq<ConfigRecord>, rec: ConfigRecord)
    ensures DeactivatedExcept(Deactivated(rs) + [rec], rec.id) == Deactivated(rs) + [rec]
  {
  }

  /** After the safety pass, every record still active carries the kept id. */
  lemma {:induction false} SafetyPassLeavesOnlyKept(rs: seq<ConfigRecord>, keep: nat)
    ensures forall r :: r in ActiveRecords(DeactivatedExcept(rs, keep)) ==> r.id == keep
  {
    if rs != [] {
      assert DeactivatedExcept(rs, keep)[1..] == DeactivatedExcept(rs[1..], keep);
      SafetyPassLeavesOnlyKept(rs[1..], keep);
    }
  }

  /** When ids are distinct and every active record carries the same id, at most one record is active. */
  lemma {:induction false} OneActiveUnderOneId(rs: seq<ConfigRecord>, keep: nat)
    requires DistinctIds(rs)
    requires forall r :: r in ActiveRecords(rs) ==> r.id == keep
    ensures |ActiveRecords(rs)| <= 1
  {
    if rs != [] {
      var tail := ActiveRecords(rs[1..]);
      assert ActiveRecords(rs) == (if rs[0].isActive then [rs[0]] else []) + tail;
      forall i, j | 0 <= i < j < |rs[1..]| ensures rs[1..][i].id != rs[1..][j].id {
        assert rs[1..][i] == rs[i + 1] && rs[1..][j] == rs[j + 1];
      }
      forall r | r in tail ensures r.id == keep {
        assert r in ActiveRecords(rs);
      }
      OneActiveUnderOneId(rs[1..], keep);
      forall x | x in rs[1..] ensures x.id != rs[0].id {
        var j :| 0 <= j < |rs[1..]| && rs[1..][j] == x;
        assert x == rs[j + 1];
      }
      assert tail != [] ==> tail[0] in tail;
    }
  }

  /** The maximum version is one of the versions and bounds all of them. */
  lemma {:induction false} MaxVersionIsMax(rs: seq<ConfigRecord>)
    requires rs != []
    ensures forall k :: 0 <= k < |rs| ==> rs[k].version <= MaxVersion(rs)
    ensures exists k :: 0 <= k < |rs| && rs[k].version == MaxVersion(rs)
  {
    if |rs| > 1 {
      MaxVersionIsMax(rs[1..]);
      var j :| 0 <= j < |rs[1..]| && rs[1..][j].version == MaxVersion(rs[1..]);
      if rs[0].version > MaxVersion(rs[1..]) {
        assert rs[0].version == MaxVersion(rs);
      } else {
        assert rs[j + 1].version == MaxVersion(rs);
      }
      forall k | 0 <= k < |rs| ensures rs[k].version <= MaxVersion(rs) {
        if k > 0 {
          assert rs[k] == rs[1..][k - 1];
        }
      }
    } else {
      assert rs[0].version == MaxVersion(rs);
    }
  }

  /** No stored template carries the all-zero id, so the delete-all filter removes every template. */
  lemma PurgeRemovesAll(ts: map<string, TemplateRecord>)
    requires forall h :: h in ts ==> ts[h].id != NilId
    ensures TemplatesWithId(ts, NilId) == map[]
  {
  }

  class Store {
    var configs: seq<ConfigRecord>
    var templates: map<string, TemplateRecord>
    var nextId: nat

    /**
     * At most one configuration is active, record ids are distinct and below
     * the id counter, and every template is filed under its own hash.
     */
    ghost predicate Valid()
      reads this
    {
      |ActiveRecords(configs)| <= 1
      && 1 <= nextId
      && IdsBelow(configs, nextId)
      && DistinctIds(configs)
      && (forall h :: h in templates ==> templates[h].hash == h && NilId < templates[h].id < nextId)
    }

    constructor ()
      ensures Valid()
      ensures configs == [] && templates == map[] && nextId == 1
    {
      configs := [];
      templates := map[];
      nextId := 1;
    }

    /** `insert([...]).select().single()` on `form_configs`. */
    method InsertConfig(version: int, config: FormConfig, isActive: bool, createdBy: Option<string>, notes: string)
      returns (rec: ConfigRecord)
      requires Valid()
      requires isActive ==> ActiveRecords(configs) == []
      modifies this
      ensures Valid()
      ensures rec == ConfigRecord(old(nextId), version, config, isActive, createdBy, notes)
      ensures configs == old(configs) + [rec]
      ensures nextId == old(nextId) + 1
      ensures templates == old(templates)
    {
      rec := ConfigRecord(nextId, version, config, isActive, createdBy, notes);
      ActiveOfAppend(configs, [rec]);
      assert ActiveRecords([rec]) == (if isActive then [rec] else []) + ActiveRecords([]);
      configs := configs + [rec];
      nextId := nextId + 1;
    }

    /** `update({ is_active: false }).eq('is_active', true)` on `form_configs`. */
    method DeactivateAll()
      requires Valid()
      modifies this
      ensures Valid()
      ensures configs == Deactivated(old(configs))
      ensures templates == old(templates) && nextId == old(nextId)
    {
      DeactivatedHasNoActive(configs);
      configs := Deactivated(configs);
    }

    /** `update({ is_active: false }).neq('id', keep).eq('is_active', true)` on `form_configs`. */
    method DeactivateAllExcept(keep: nat)
      requires Valid()
      modifies this
      ensures Valid()
      ensures configs == DeactivatedExcept(old(configs), keep)
      ensures templates == old(templates) && nextId == old(nextId)
    {
      var after := DeactivatedExcept(configs, keep);
      SafetyPassLeavesOnlyKept(configs, keep);
      assert forall k :: 0 <= k < |after| ==> after[k].id == configs[k].id;
      OneActiveUnderOneId(after, keep);
      configs := after;
    }

    /** `insert([...]).select().single()` on `narrative_templates`, for a hash not yet stored. */
    method InsertTemplate(hash: string, sections: Sections) returns (rec: TemplateRecord)
      requires Valid()
      requires hash !in templates
      modifies this
      ensures Valid()
      ensures rec == TemplateRecord(old(nextId), hash, sections)
      ensures templates == old(templates)[hash := rec]
      ensures configs == old(configs) && nextId == old(nextId) + 1
    {
      rec := TemplateRecord(nextId, hash, sections);
      templates := templates[hash := rec];
      nextId := nextId + 1;
    }

    /** `delete().neq('id', keep)` on `narrative_templates`. */
    method DeleteTemplatesExcept(keep: nat)
      requires Valid()
      modifies this
      ensures Valid()
      ensures templates == TemplatesWithId(old(templates), keep)
      ensures configs == old(configs) && nextId == old(nextId)
    {
      templates := TemplatesWithId(templates, keep);
    }
  }
}
