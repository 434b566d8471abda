/** The run-time settings of the Memgraph version the operator is pinned to. */
module RuntimeSettings {
  import opened Settings

  /* The table, by the length of the setting's name. */

  const SHORT: Table := map[
    "timezone" := "timezone",
    "log_level" := "log.level",
    "bolt_server_name_for_init" := "server.name",
    "query_execution_timeout_sec" := "query.timeout",
    "also_log_to_stderr" := "log.to_stderr"]

  const MIDDLING: Table := map[
    "log_query_plan" := "log.query_plan",
    "debug_query_plans" := "debug-query-plans",
    "log_failed_queries" := "log.failed_queries",
    "log_min_duration_ms" := "log.min_duration_ms",
    "storage_gc_aggressive" := "storage-gc-aggressive"]

  const LONG: Table := map[
    "cartesian_product_enabled" := "cartesian-product-enabled",
    "storage_snapshot_interval" := "storage.snapshot.interval",
    "hops_limit_partial_results" := "hops_limit_partial_results",
    "storage_access_timeout_sec" := "storage.access_timeout_sec",
    "file_download_conn_timeout_sec" := "file.download_conn_timeout_sec",
    "storage_omit_vector_index_properties_on_return" := "storage.omit_vector_index_properties_on_return"]

  const RUNTIME_SETTINGS: Table := SHORT + MIDDLING + LONG

  predicate EndsIn(setting: string, last: char) { setting != "" && setting[|setting| - 1] == last }

  /** The settings are at least this long, and shorter than that. */
  ghost predicate Between(table: Table, least: nat, bound: nat) {
    forall f :: f in table ==> least <= |table[f]| < bound
  }

  ghost predicate Injective(table: Table) {
    forall f, g :: f in table && g in table && table[f] == table[g] ==> f == g
  }

  /** Only "log.to_stderr" shares its length with another, and ends differently. */
  lemma ShortSettings()
    ensures Between(SHORT, 8, 14) && Injective(SHORT)
    ensures forall f :: f in SHORT ==> |SHORT[f]| in {8, 9, 11, 13}
  {
    assert EndsIn("query.timeout", 't') && EndsIn("log.to_stderr", 'r');
  }

  /** No two of one length. */
  lemma MiddlingSettings()
    ensures Between(MIDDLING, 14, 22) && Injective(MIDDLING)
    ensures forall f :: f in MIDDLING ==>
              (|MIDDLING[f]| == 14 && EndsIn(MIDDLING[f], 'n')) || (|MIDDLING[f]| in {17, 18} && EndsIn(MIDDLING[f], 's')) || |MIDDLING[f]| > 18
  {
  }

  /** Two pairs of one length, which end differently. */
  lemma LongSettings()
    ensures Between(LONG, 25, 47) && Injective(LONG)
  {
    assert EndsIn("cartesian-product-enabled", 'd') && EndsIn("storage.snapshot.interval", 'l');
    assert EndsIn("hops_limit_partial_results", 's') && EndsIn("storage.access_timeout_sec", 'c');
  }

  lemma SecretSettings(setting: string)
    requires setting in SECRET_SETTINGS
    ensures |setting| in {10, 16} || (|setting| == 14 && EndsIn(setting, 'y')) || (|setting| in {17, 18} && EndsIn(setting, 'e'))
  {
  }

  lemma MergedIsInjective(a: Table, b: Table, least: nat, middle: nat, bound: nat)
    requires least <= middle <= bound && Between(a, least, middle) && Between(b, middle, bound) && Injective(a) && Injective(b)
    ensures Between(a + b, least, bound) && Injective(a + b)
  {
  }

  /** The operator's own table is one it can rely on. */
  lemma TableIsValid()
    ensures ValidTable(RUNTIME_SETTINGS)
  {
    ShortSettings();
    MiddlingSettings();
    LongSettings();
    MergedIsInjective(SHORT, MIDDLING, 8, 14, 22);
    MergedIsInjective(SHORT + MIDDLING, LONG, 8, 22, 47);
    forall f | f in RUNTIME_SETTINGS ensures RUNTIME_SETTINGS[f] !in SECRET_SETTINGS {
      if RUNTIME_SETTINGS[f] in SECRET_SETTINGS {
        SecretSettings(RUNTIME_SETTINGS[f]);
        NoneIsSecret(f);
      }
    }
  }

  lemma NoneIsSecret(f: string)
    requires f in RUNTIME_SETTINGS
    ensures var setting := RUNTIME_SETTINGS[f];
      |setting| !in {10, 16} && !(|setting| == 14 && EndsIn(setting, 'y')) && !(|setting| in {17, 18} && EndsIn(setting, 'e'))
  {
    ShortSettings();
    MiddlingSettings();
    LongSettings();
    if f in LONG {
      assert RUNTIME_SETTINGS[f] == LONG[f];
    } else if f in MIDDLING {
      assert RUNTIME_SETTINGS[f] == MIDDLING[f];
    } else {
      assert RUNTIME_SETTINGS[f] == SHORT[f];
    }
  }
}
