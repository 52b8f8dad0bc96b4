/**
 * The narrative-template route (src/app/api/narrative-template/route.js):
 * `POST` is a get-or-insert on the template cache keyed by the structural
 * fingerprint of the active configuration, `DELETE` empties the cache.
 * Template generation is the fixed static template: the AI call is switched
 * off in the source, so both of `generateTemplateWithAI`'s paths return it.
 */
module NarrativeTemplateRoute {
  import opened Results
  import opened JsValues
  import opened FormModel
  import opened StructuralHash
  import opened Database

  /** The section keys every template has, in the order they are written. */
  const SectionKeys: seq<string> := ["applicant", "respondent", "children", "currentSituation", "proposed", "safety"]

  const SafetyPlaceholder := "{{safetyConcernsStatement}}"

  const ApplicantTemplate := "I, {{applicantName}}, am the applicant in this matter. My date of birth is {{applicantDOB}}. I reside at {{applicantAddress}}. I can be contacted by telephone at {{applicantPhone}} or by email at {{applicantEmail}}."
  const RespondentTemplate := "The respondent in this matter is {{otherParentName}}, who resides at {{otherParentAddress}}. The respondent can be contacted by telephone at {{otherParentPhone}} or by email at {{otherParentEmail}}."
  const ChildrenTemplate := "This application concerns {{childCount}} {{childOrChildren}}: {{childrenList}}. {{childrenDetails}}"
  const CurrentSituationTemplate := "The {{childOrChildren}} currently {{currentLivingArrangementText}}. {{currentArrangementDetails}} {{socialCareStatement}}"
  const ProposedTemplate := "I propose that the {{childOrChildren}} should {{proposedLivingArrangementText}}. {{proposedArrangementDetails}} Regarding contact with the other parent: {{proposedContactSchedule}} For holidays and special occasions: {{proposedHolidayArrangements}}"

  /** `generateStaticTemplate`: the six sections, whatever the configuration. */
  function StaticTemplate(c: FormConfig): Sections {
    [ ("applicant", Str(ApplicantTemplate)),
      ("respondent", Str(RespondentTemplate)),
      ("children", Str(ChildrenTemplate)),
      ("currentSituation", Str(CurrentSituationTemplate)),
      ("proposed", Str(ProposedTemplate)),
      ("safety", Str(SafetyPlaceholder)) ]
  }

  /** The keys of a section list, in order. */
  function Keys(ss: Sections): seq<string> {
    seq(|ss|, k requires 0 <= k < |ss| => ss[k].0)
  }

  /**
   * The static template has exactly the six section keys, every section is a
   * string, the safety section is the single computed placeholder, and the
   * template is the same for every configuration.
   */
  lemma StaticTemplateShape(c: FormConfig, d: FormConfig)
    ensures Keys(StaticTemplate(c)) == SectionKeys
    ensures forall k :: 0 <= k < |StaticTemplate(c)| ==> StaticTemplate(c)[k].1.Str?
    ensures StaticTemplate(c)[5] == ("safety", Str(SafetyPlaceholder))
    ensures StaticTemplate(c) == StaticTemplate(d)
  {
    assert Keys(StaticTemplate(c)) == SectionKeys;
  }

  /**
   * `generateTemplateWithAI`. `aiFails` stands for an exception on the way to
   * the (switched-off) model call; `extractFormStructure` feeds only the
   * prompt, which is never sent.
   */
  function GenerateTemplateWithAI(c: FormConfig, aiFails: bool): (r: Sections)
    requires c.pages.Some?
    ensures r == StaticTemplate(c)
  {
    var _ := ExtractFormStructure(c);
    if aiFails then StaticTemplate(c) else StaticTemplate(c)
  }

  /**
   * `loadFormConfigServer` (src/lib/form/formConfigServer.js): the active
   * configuration, or the default when the query fails or `.single()` does
   * not find exactly one active row.
   */
  function LoadFormConfigServer(rs: seq<ConfigRecord>, defaultConfig: FormConfig, readFails: bool): FormConfig {
    var active := ActiveRecords(rs);
    if readFails || |active| != 1 then defaultConfig else active[0].config
  }

  /** The loader serves either the default or the configuration of an active row of the table. */
  lemma LoadedConfigIsActiveOrDefault(rs: seq<ConfigRecord>, defaultConfig: FormConfig, readFails: bool)
    ensures var c := LoadFormConfigServer(rs, defaultConfig, readFails);
      c == defaultConfig || exists r :: r in rs && r.isActive && r.config == c
  {
    var active := ActiveRecords(rs);
    if !readFails && |active| == 1 {
      assert active[0] in active;
    }
  }

  /**
   * A configuration published by the form-config route (every earlier row
   * deactivated, the new row appended active) is the one the loader serves
   * when its read succeeds.
   */
  lemma PublishedConfigIsLoaded(rs: seq<ConfigRecord>, rec: ConfigRecord, defaultConfig: FormConfig)
    requires rec.isActive
    ensures LoadFormConfigServer(Deactivated(rs) + [rec], defaultConfig, false) == rec.config
  {
    PublishedIsSoleActive(rs, rec);
  }

  /** `!formConfig.pages || formConfig.pages.length === 0`. */
  predicate HasPages(c: FormConfig) {
    c.pages.Some? && c.pages.value != []
  }

  /**
   * Which of `POST`'s store calls fail: the configuration read, the cache
   * lookup (its error reads as "not cached"), the insert with an error other
   * than a duplicate hash, and the refetch after a duplicate.
   */
  datatype TemplateFaults = TemplateFaults(
    configReadFails: bool, lookupFails: bool, insertFails: bool, refetchFails: bool)

  datatype TemplateResponse =
    | Unauthorized
    | ConfigEmpty
    | SaveFailed
    | RefetchFailed
    | Served(template: TemplateRecord, cached: bool, configHash: string)
  {
    function Status(): nat {
      if Served? then 200 else if Unauthorized? then 401 else 500
    }
  }

  /** `POST /api/narrative-template`. */
  method Post(db: Store, hasher: Structure -> string, user: Option<string>, defaultConfig: FormConfig,
              faults: TemplateFaults)
    returns (resp: TemplateResponse)
    requires db.Valid()
    modifies db
    ensures db.Valid()
    ensures db.configs == old(db.configs)
    ensures user.None? ==> resp == Unauthorized && db.templates == old(db.templates)
    ensures var c := LoadFormConfigServer(old(db.configs), defaultConfig, faults.configReadFails);
      user.Some? && !HasPages(c) ==> resp == ConfigEmpty && db.templates == old(db.templates)
    ensures var c := LoadFormConfigServer(old(db.configs), defaultConfig, faults.configReadFails);
      user.Some? && HasPages(c) ==>
        var h := ConfigHash(hasher, c);
        // a stored template is served from the cache, directly or after the duplicate-key refetch
        (h in old(db.templates) && !(faults.lookupFails && faults.refetchFails) ==>
           resp == Served(old(db.templates)[h], true, h) && db.templates == old(db.templates))
        && (h in old(db.templates) && faults.lookupFails && faults.refetchFails ==>
           resp == RefetchFailed && db.templates == old(db.templates))
        // a miss inserts exactly one template under the hash
        && (h !in old(db.templates) && faults.insertFails ==>
           resp == SaveFailed && db.templates == old(db.templates))
        && (h !in old(db.templates) && !faults.insertFails ==>
           var rec := TemplateRecord(old(db.nextId), h, StaticTemplate(c));
           resp == Served(rec, false, h) && db.templates == old(db.templates)[h := rec])
  {
    if user.None? {
      return Unauthorized;
    }
    var config := LoadFormConfigServer(db.configs, defaultConfig, faults.configReadFails);
    if !HasPages(config) {
      return ConfigEmpty;
    }
    var hash := ConfigHash(hasher, config);
    if !faults.lookupFails && hash in db.templates {
      return Served(db.templates[hash], true, hash);
    }
    var sections := GenerateTemplateWithAI(config, false);
    if hash in db.templates {
      // the insert fails with 23505 (unique violation on form_config_hash)
      if faults.refetchFails {
        return RefetchFailed;
      }
      return Served(db.templates[hash], true, hash);
    }
    if faults.insertFails {
      return SaveFailed;
    }
    var rec := db.InsertTemplate(hash, sections);
    resp := Served(rec, false, hash);
  }

  datatype DeleteResponse = DeleteUnauthorized | DeleteFailed | Deleted

  /** `DELETE /api/narrative-template`. */
  method Delete(db: Store, user: Option<string>, deleteFails: bool) returns (resp: DeleteResponse)
    requires db.Valid()
    modifies db
    ensures db.Valid()
    ensures db.configs == old(db.configs)
    ensures user.None? ==> resp == DeleteUnauthorized && db.templates == old(db.templates)
    ensures user.Some? && deleteFails ==> resp == DeleteFailed && db.templates == old(db.templates)
    ensures user.Some? && !deleteFails ==> resp == Deleted && db.templates == map[]
  {
    if user.None? {
      return DeleteUnauthorized;
    }
    if deleteFails {
      return DeleteFailed;
    }
    PurgeRemovesAll(db.templates);
    db.DeleteTemplatesExcept(NilId);
    resp := Deleted;
  }
}
