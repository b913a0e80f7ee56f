/** School reconciliation (main.py:81-101): which schools the dashboard shows,
    which it warns about, and when it halts instead. */
module Reconciliation {
  import opened Wrappers
  import opened Names
  import opened Tables

  /** The two data conditions on which the dashboard stops with an error. */
  datatype Halt =
    | EmptyDataset  // main.py:81-83: a loader returned an empty dictionary
    | NoOverlap     // main.py:90-92: no school has both kinds of data

  /** The working school list, the schools lacking environment data, and the
      choices of the sidebar selector. */
  datatype Schools = Schools(common: seq<Name>, missingEnv: set<Name>, selector: seq<Name>)

  /** The selector's first choice, "전체" ("all schools"). */
  const AllSchools: Name := "\U{C804}\U{CCB4}"

  /** Lines 81-101: halt on an empty dictionary, otherwise take the sorted
      intersection of the two key sets; halt if it is empty; otherwise warn
      about growth schools without environment data and build the selector. */
  function Reconcile(env: map<Name, EnvTable>, growth: map<Name, GrowthTable>): (r: Result<Schools, Halt>)
    ensures r.Failure? <==> |env| == 0 || |growth| == 0 || env.Keys * growth.Keys == {}
    ensures r.Failure? ==> (r.error == EmptyDataset <==> |env| == 0 || |growth| == 0)
    ensures r.Success? ==> StrictlyAscending(r.value.common)
    ensures r.Success? ==> forall s :: s in r.value.common <==> s in env && s in growth
    ensures r.Success? ==> forall s :: s in r.value.missingEnv ==> s !in r.value.common
    ensures r.Success? ==> forall s :: s in growth <==> s in r.value.missingEnv || s in r.value.common
    ensures r.Success? ==> forall s :: s in env && s !in growth ==> s !in r.value.missingEnv
    ensures r.Success? ==> r.value.selector == [AllSchools] + r.value.common
  {
    if |env| == 0 || |growth| == 0 then Failure(EmptyDataset)
    else
      var common := SortedNames(env.Keys * growth.Keys);
      if |common| == 0 then Failure(NoOverlap)
      else
        var missingEnv := growth.Keys - env.Keys;
        Success(Schools(common, missingEnv, [AllSchools] + common))
  }

  /** Schools lacking environment data only produce a warning: when both
      dictionaries are non-empty and share a school, the dashboard goes on
      whatever `missingEnv` holds, and it is exactly growth minus environment. */
  lemma MissingEnvOnlyWarns(env: map<Name, EnvTable>, growth: map<Name, GrowthTable>, s: Name)
    requires s in growth && s !in env
    requires exists t :: t in env && t in growth
    ensures Reconcile(env, growth).Success?
    ensures s in Reconcile(env, growth).value.missingEnv
  {
    var t :| t in env && t in growth;
    assert t in env.Keys * growth.Keys;
  }
}
