/** The frozen office contract meets what the proofs ask of a contract. */
module OfficeContract {
  import opened Sorting
  import opened BenchmarkContract

  lemma ProfileWordsFirst()
    ensures IsWord("numeric_distribution") && IsWord("category_frequency") && IsWord("independent_two_group_mean")
  {
  }

  lemma ProfileWordsLast()
    ensures IsWord("paired_two_time_mean_change") && IsWord("linear_co_movement") && IsWord("rank_co_movement")
  {
  }

  lemma ActionWordsFirst()
    ensures IsWord("start") && IsWord("choose_causal_no") && IsWord("choose_causal_yes")
    ensures IsWord("choose_causal_not_sure")
  {
  }

  lemma ActionWordsNext()
    ensures IsWord("record_causal_boundary") && IsWord("back")
    ensures IsWord("select_profile") && IsWord("choose_no_matching_profile") && IsWord("submit_roles")
  {
  }

  lemma ActionWordsLast()
    ensures IsWord("answer") && IsWord("answer_not_sure") && IsWord("resume")
    ensures IsWord("retract") && IsWord("replan") && IsWord("prepare")
    ensures IsWord("confirm") && IsWord("cancel") && IsWord("sync_mode")
  {
  }

  lemma ComponentWordsFirst()
    ensures IsWord("ledger_create_open") && IsWord("projection") && IsWord("publication_readback_audit")
  {
  }

  lemma ComponentWordsNext()
    ensures IsWord("request_build") && IsWord("request_initialize_append") && IsWord("resolve_plan_passport_append")
  {
  }

  lemma ComponentWordsLast()
    ensures IsWord("task_index_allocate") && IsWord("task_session") && IsWord("answer_append_transition")
    ensures IsWord("answer_build") && IsWord("handoff") && IsWord("preflight")
  {
  }

  lemma OfficeWords()
    ensures Words(OFFICE.profiles) && Words(OFFICE.actions)
  {
    ProfileWordsFirst();
    ProfileWordsLast();
    ActionWordsFirst();
    ActionWordsNext();
    ActionWordsLast();
  }

  lemma OfficeComponentWords()
    ensures Words(OFFICE.initialComponents) && Words(OFFICE.laterComponents) && Words(OFFICE.terminalComponents)
  {
    ComponentWordsFirst();
    ComponentWordsNext();
    ComponentWordsLast();
  }

  lemma OfficeProfilesAreDistinct()
    ensures Distinct(OFFICE.profiles)
  {
  }

  lemma OfficeActionsAreDistinct()
    ensures Distinct(OFFICE.actions)
  {
  }

  lemma OfficeComponentsAreDistinct()
    ensures Distinct(OFFICE.initialComponents) && Distinct(OFFICE.laterComponents)
            && Distinct(OFFICE.terminalComponents)
  {
  }

  /** What the proofs ask of a contract holds of the frozen one. */
  lemma OfficeIsValid()
    ensures OFFICE.Valid()
  {
    OfficeWords();
    OfficeComponentWords();
    OfficeProfilesAreDistinct();
    OfficeActionsAreDistinct();
    OfficeComponentsAreDistinct();
  }
}
