/**
 * The first-run setup wizard: it asks for the required variables a
 * service is missing and merges the answers into the service's `.env`.
 */
module SetupWizard {
  import opened Models
  import opened ConfigEditor

  /** The inputs for the declared variables named in `missing`, in declaration order. */
  function MissingInputs(vars: seq<EnvVarConfig>, missing: seq<string>, current: map<string, string>): seq<EnvInput> {
    if vars == [] then []
    else
      var n := |vars| - 1;
      MissingInputs(vars[..n], missing, current)
        + (if vars[n].name in missing
           then [EnvInput(vars[n], CurrentValue(current, vars[n].name), "wizard-" + vars[n].name)]
           else [])
  }

  /** `_compose_missing_inputs`. */
  method ComposeMissingInputs(vars: seq<EnvVarConfig>, missing: seq<string>, current: map<string, string>)
    returns (inputs: seq<EnvInput>)
    ensures inputs == MissingInputs(vars, missing, current)
  {
    inputs := [];
    for i := 0 to |vars|
      invariant inputs == MissingInputs(vars[..i], missing, current)
    {
      assert vars[..i + 1][..i] == vars[..i];
      if vars[i].name in missing {
        var currentValue := CurrentValue(current, vars[i].name);
        var inputId := "wizard-" + vars[i].name;
        inputs := inputs + [EnvInput(vars[i], currentValue, inputId)];
      }
    }
    assert vars[..|vars|] == vars;
  }

  /**
   * Every input belongs to a declared variable named in `missing`, carries
   * the id `wizard-<name>` and the variable's current value (or ""), and
   * every such declared variable has an input.
   */
  lemma {:induction false} MissingInputsSpec(vars: seq<EnvVarConfig>, missing: seq<string>, current: map<string, string>)
    ensures |MissingInputs(vars, missing, current)| <= |vars|
    ensures forall w :: w in MissingInputs(vars, missing, current) ==>
      w.config in vars && w.config.name in missing
      && w.inputId == "wizard-" + w.config.name
      && w.currentValue == CurrentValue(current, w.config.name)
    ensures forall v :: v in vars && v.name in missing ==>
      EnvInput(v, CurrentValue(current, v.name), "wizard-" + v.name) in MissingInputs(vars, missing, current)
  {
    if vars != [] {
      var n := |vars| - 1;
      MissingInputsSpec(vars[..n], missing, current);
      assert forall v :: v in vars <==> v in vars[..n] || v == vars[n];
    }
  }

  /** `[v for v in missing if v not in values]`. */
  function StillMissing(missing: seq<string>, values: map<string, string>): (r: seq<string>)
    ensures |r| <= |missing|
    ensures forall x :: x in r <==> x in missing && x !in values
    ensures (forall x :: x in missing ==> x !in values) ==> r == missing
  {
    if missing == [] then []
    else
      var n := |missing| - 1;
      var front := StillMissing(missing[..n], values);
      assert forall x :: x in missing <==> x == missing[n] || x in missing[..n];
      assert missing[..n] + [missing[n]] == missing;
      if missing[n] in values then front else front + [missing[n]]
  }

  /** The names still missing keep the order in which they were missing. */
  lemma {:induction false} StillMissingInOrder(missing: seq<string>, values: map<string, string>)
    ensures Subsequence(StillMissing(missing, values), missing)
  {
    if missing != [] {
      var n := |missing| - 1;
      StillMissingInOrder(missing[..n], values);
      assert missing[..n] + [missing[n]] == missing;
      if missing[n] in values {
        SubsequenceDrop(StillMissing(missing[..n], values), missing[..n], missing[n]);
      } else {
        SubsequenceKeep(StillMissing(missing[..n], values), missing[..n], missing[n]);
      }
    }
  }

  /** What saving the wizard does: report what is still missing, or write the merged map and close. */
  datatype WizardOutcome = Incomplete(stillMissing: seq<string>) | Completed(env: map<string, string>, text: string)

  /** `action_save` of the wizard. */
  method ActionSave(missing: seq<string>, currentEnv: map<string, string>, widgets: map<string, string>)
    returns (r: WizardOutcome)
    ensures var values := Provided("wizard-", missing, widgets);
      && (StillMissing(missing, values) != [] ==> r == Incomplete(StillMissing(missing, values)))
      && (StillMissing(missing, values) == [] ==> r == Completed(currentEnv + values, Serialize(currentEnv + values)))
    ensures r.Completed? ==> forall x :: x in missing ==> x in r.env && r.env[x] != ""
    ensures r.Completed? ==> forall k :: k in currentEnv && k !in missing ==> k in r.env && r.env[k] == currentEnv[k]
    ensures r.Completed? ==> r.env.Keys == currentEnv.Keys + Provided("wizard-", missing, widgets).Keys
  {
    var values := CollectValues("wizard-", missing, widgets);
    var stillMissing := StillMissing(missing, values);
    if stillMissing != [] {
      return Incomplete(stillMissing);
    }
    var merged := currentEnv + values;
    var text := SaveEnvFile(merged);
    r := Completed(merged, text);
    ProvidedSpec("wizard-", missing, widgets);
    ProvidedNonEmpty("wizard-", missing, widgets);
    forall x | x in missing ensures x in values {
      assert x !in stillMissing;
    }
  }
}
