/** The ten fixed operations of the Linux baseline (linux_readiness.py, CASES). */
module Cases {
  import opened Prelude

  datatype Case =
    | HOST_ISOLATION_NEGATIVES
    | LINUX_TARGET_BUILD
    | FULL_PREDECESSOR_REGRESSION
    | CONTROL_CONTAINER_STARTUP
    | POSTGRES_MIGRATION_AND_RLS
    | DURABLE_RESTART
    | ARBITRARY_NON_ROOT_UID
    | READ_ONLY_ROOT_FILESYSTEM
    | KUBERNETES_SMOKE
    | DEFAULT_DENY_NETWORK

  const CASES: seq<Case> := [
    HOST_ISOLATION_NEGATIVES, LINUX_TARGET_BUILD, FULL_PREDECESSOR_REGRESSION, CONTROL_CONTAINER_STARTUP,
    POSTGRES_MIGRATION_AND_RLS, DURABLE_RESTART, ARBITRARY_NON_ROOT_UID, READ_ONLY_ROOT_FILESYSTEM,
    KUBERNETES_SMOKE, DEFAULT_DENY_NETWORK]

  const ALL: set<Case> := {
    HOST_ISOLATION_NEGATIVES, LINUX_TARGET_BUILD, FULL_PREDECESSOR_REGRESSION, CONTROL_CONTAINER_STARTUP,
    POSTGRES_MIGRATION_AND_RLS, DURABLE_RESTART, ARBITRARY_NON_ROOT_UID, READ_ONLY_ROOT_FILESYSTEM,
    KUBERNETES_SMOKE, DEFAULT_DENY_NETWORK}

  function CaseName(c: Case): string {
    match c
    case HOST_ISOLATION_NEGATIVES => "HOST_ISOLATION_NEGATIVES"
    case LINUX_TARGET_BUILD => "LINUX_TARGET_BUILD"
    case FULL_PREDECESSOR_REGRESSION => "FULL_PREDECESSOR_REGRESSION"
    case CONTROL_CONTAINER_STARTUP => "CONTROL_CONTAINER_STARTUP"
    case POSTGRES_MIGRATION_AND_RLS => "POSTGRES_MIGRATION_AND_RLS"
    case DURABLE_RESTART => "DURABLE_RESTART"
    case ARBITRARY_NON_ROOT_UID => "ARBITRARY_NON_ROOT_UID"
    case READ_ONLY_ROOT_FILESYSTEM => "READ_ONLY_ROOT_FILESYSTEM"
    case KUBERNETES_SMOKE => "KUBERNETES_SMOKE"
    case DEFAULT_DENY_NETWORK => "DEFAULT_DENY_NETWORK"
  }

  function CaseNamed(t: string): Option<Case> {
    FindCase(t, CASES)
  }

  function FindCase(t: string, cases: seq<Case>): (r: Option<Case>)
    ensures r.Some? ==> CaseName(r.value) == t
  {
    if cases == [] then None
    else if CaseName(cases[0]) == t then Some(cases[0])
    else FindCase(t, cases[1..])
  }

  lemma {:induction false} NamesDiffer(a: Case, b: Case)
    requires CaseName(a) == CaseName(b)
    ensures a == b
  {
    var x, y := CaseName(a), CaseName(b);
    assert x[0] == y[0] && x[2] == y[2] && |x| == |y|;
  }

  lemma {:induction false} FindCaseFinds(c: Case, cases: seq<Case>)
    requires c in cases
    ensures FindCase(CaseName(c), cases) == Some(c)
  {
    if CaseName(cases[0]) == CaseName(c) {
      NamesDiffer(cases[0], c);
    } else {
      FindCaseFinds(c, cases[1..]);
    }
  }

  lemma {:induction false} IsCase(c: Case)
    ensures c in CASES
  {
    assert CASES[0] == HOST_ISOLATION_NEGATIVES && CASES[1] == LINUX_TARGET_BUILD
           && CASES[2] == FULL_PREDECESSOR_REGRESSION && CASES[3] == CONTROL_CONTAINER_STARTUP
           && CASES[4] == POSTGRES_MIGRATION_AND_RLS && CASES[5] == DURABLE_RESTART
           && CASES[6] == ARBITRARY_NON_ROOT_UID && CASES[7] == READ_ONLY_ROOT_FILESYSTEM
           && CASES[8] == KUBERNETES_SMOKE && CASES[9] == DEFAULT_DENY_NETWORK;
  }

  lemma {:induction false} CaseOfName(c: Case)
    ensures CaseNamed(CaseName(c)) == Some(c)
  {
    IsCase(c);
    FindCaseFinds(c, CASES);
  }

  lemma {:induction false} EveryCase(c: Case)
    ensures c in ALL
  {
  }

  function Members(s: seq<Case>): set<Case> {
    set c | c in s
  }

  predicate Distinct(s: seq<Case>) {
    forall i, j :: 0 <= i < j < |s| ==> s[i] != s[j]
  }

  lemma {:induction false} DistinctSize(s: seq<Case>)
    requires Distinct(s)
    ensures |Members(s)| == |s|
  {
    if s != [] {
      var t := s[..|s| - 1];
      DistinctSize(t);
      assert Members(s) == Members(t) + {s[|s| - 1]};
    }
  }

  lemma {:induction false} TenAreAll(cases: set<Case>)
    requires |cases| >= 10
    ensures cases == ALL
  {
    forall c | c in cases
      ensures c in ALL
    {
      EveryCase(c);
    }
    assert |ALL| == 10;
    assert |ALL - cases| == |ALL| - |cases|;
    assert ALL - cases == {};
  }
}
