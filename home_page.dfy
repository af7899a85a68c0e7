/** The admin settings page's state: the reducer over the identity provider's
    roles, the host's roles, the edited mappings and the loading, error and
    success flags; the value each role's select shows; and the body the save
    button posts. The page component and its bundled copies share one reducer. */
module HomePage {
  import opened Common
  import opened Host
  import opened RoleResolution

  /** A mapped role id as the page holds it: a number as the server sent it, or
      the string a `SingleSelect` hands back once the user picks an option. */
  datatype MappedValue = Num(n: int) | Str(s: string)

  datatype PageState = PageState(keycloakRoles: seq<RealmRole>, strapiRoles: seq<AdminRole>,
                                 roleMappings: map<string, MappedValue>, loading: bool,
                                 error: Option<string>, success: bool)

  /** The fields a `SET_DATA` payload carries; an absent field leaves the
      state's value in place. */
  datatype Payload = Payload(keycloakRoles: Option<seq<RealmRole>>, strapiRoles: Option<seq<AdminRole>>,
                             roleMappings: Option<map<string, MappedValue>>, loading: Option<bool>,
                             error: Option<Option<string>>, success: Option<bool>)

  /** A dispatched action. `Unknown` stands for any `type` other than the five
      the reducer handles. */
  datatype Action = SetData(payload: Payload)
                  | SetRoleMapping(keycloakRole: string, strapiRole: MappedValue)
                  | SetError(error: Option<string>)
                  | SetSuccess
                  | ResetSuccess
                  | Unknown(kind: string)

  /** No roles, no mappings, loading, no error, not saved. */
  const InitialState := PageState([], [], map[], true, None, false)

  const FetchFailedMessage := "Failed to fetch roles. Please check Keycloak settings."
  const SaveFailedMessage := "Failed to save mappings. Try again."

  function Overlay<T>(o: Option<T>, v: T): T
  {
    if o.Some? then o.value else v
  }

  /** The reducer: each case returns a spread copy of the state. */
  function Reduce(state: PageState, action: Action): PageState
  {
    match action
    case SetData(p) =>
      PageState(Overlay(p.keycloakRoles, state.keycloakRoles), Overlay(p.strapiRoles, state.strapiRoles),
                Overlay(p.roleMappings, state.roleMappings), false,
                Overlay(p.error, state.error), Overlay(p.success, state.success))
    case SetRoleMapping(k, v) => state.(roleMappings := state.roleMappings[k := v])
    case SetError(e) => state.(error := e, loading := false)
    case SetSuccess => state.(success := true)
    case ResetSuccess => state.(success := false)
    case Unknown(_) => state
  }

  /** The state after a sequence of dispatches. */
  function ReduceAll(state: PageState, actions: seq<Action>): PageState
    decreases |actions|
  {
    if |actions| == 0 then state else ReduceAll(Reduce(state, actions[0]), actions[1..])
  }

  /** The payload the page dispatches after both fetches succeed. */
  function LoadedPayload(keycloakRoles: seq<RealmRole>, strapiRoles: seq<AdminRole>,
                         roleMappings: map<string, MappedValue>): Payload
  {
    Payload(Some(keycloakRoles), Some(strapiRoles), Some(roleMappings), None, None, None)
  }

  /** Decimal digits of a natural number. */
  function Digits(n: nat): (s: string)
    ensures |s| >= 1 && (n >= 10 ==> |s| >= 2)
    ensures forall i :: 0 <= i < |s| ==> '0' <= s[i] <= '9'
  {
    var d := [(('0' as int) + n % 10) as char];
    if n < 10 then d else Digits(n / 10) + d
  }

  /** `String(n)` for an integer. */
  function DecimalString(n: int): (s: string)
    ensures s == "0" <==> n == 0
    ensures s != ""
  {
    if n < 0 then "-" + Digits(-n) else Digits(n)
  }

  /** The number a string of decimal digits denotes. */
  function DigitsValue(s: string): nat
    requires forall i :: 0 <= i < |s| ==> '0' <= s[i] <= '9'
  {
    if |s| == 0 then 0 else DigitsValue(s[..|s| - 1]) * 10 + (s[|s| - 1] as int - '0' as int)
  }

  /** `Digits` writes the number back: reading its digits gives `n`. */
  lemma {:induction false} DigitsRoundTrip(n: nat)
    ensures DigitsValue(Digits(n)) == n
  {
    if n >= 10 {
      DigitsRoundTrip(n / 10);
      var d := Digits(n);
      assert d[..|d| - 1] == Digits(n / 10);
    }
  }

  /** `String(n)` is the decimal notation of `n`: digits for a natural number,
      a minus sign before the digits of `-n` otherwise. So distinct ids give
      distinct select values. */
  lemma DecimalStringMeaning(n: int, m: int)
    ensures var s := DecimalString(n);
      && (n >= 0 ==> (forall i :: 0 <= i < |s| ==> '0' <= s[i] <= '9') && DigitsValue(s) == n)
      && (n < 0 ==> s[0] == '-' && (forall i :: 1 <= i < |s| ==> '0' <= s[i] <= '9') && DigitsValue(s[1..]) == -n)
    ensures DecimalString(n) == DecimalString(m) ==> n == m
  {
    DigitsRoundTrip(if n >= 0 then n else -n);
    DigitsRoundTrip(if m >= 0 then m else -m);
    var s, t := DecimalString(n), DecimalString(m);
    if n < 0 {
      assert s[1..] == Digits(-n);
    }
    if m < 0 {
      assert t[1..] == Digits(-m);
    }
  }

  /** JavaScript truthiness of a mapped value. */
  predicate TruthyValue(v: MappedValue)
  {
    match v
    case Num(n) => n != 0
    case Str(s) => s != ""
  }

  /** `String(state.roleMappings[name] || '')`: the select value of the page. */
  function SelectValue(m: map<string, MappedValue>, name: string): string
  {
    if name !in m || !TruthyValue(m[name]) then ""
    else match m[name]
      case Num(n) => DecimalString(n)
      case Str(s) => s
  }

  /** `state.roleMappings[name] || ''` without the conversion: the select
      value of the older bundled page, a number when the server sent one. */
  function SelectValueRaw(m: map<string, MappedValue>, name: string): MappedValue
  {
    if name !in m || !TruthyValue(m[name]) then Str("") else m[name]
  }

  /** The body the save button posts: `{ mappings: state.roleMappings }`. */
  function SavePayload(state: PageState): map<string, MappedValue>
  {
    state.roleMappings
  }

  // ---------------------------------------------------------------------
  // Properties

  /** `SET_DATA` takes each field the payload carries, keeps the others, and
      ends loading even when the payload says otherwise. */
  lemma SetDataOverlays(state: PageState, p: Payload)
    ensures var r := Reduce(state, SetData(p));
      && !r.loading
      && (p.keycloakRoles.Some? ==> r.keycloakRoles == p.keycloakRoles.value)
      && (p.keycloakRoles.None? ==> r.keycloakRoles == state.keycloakRoles)
      && (p.strapiRoles.Some? ==> r.strapiRoles == p.strapiRoles.value)
      && (p.strapiRoles.None? ==> r.strapiRoles == state.strapiRoles)
      && (p.roleMappings.Some? ==> r.roleMappings == p.roleMappings.value)
      && (p.roleMappings.None? ==> r.roleMappings == state.roleMappings)
      && (p.error.Some? ==> r.error == p.error.value)
      && (p.error.None? ==> r.error == state.error)
      && (p.success.Some? ==> r.success == p.success.value)
      && (p.success.None? ==> r.success == state.success)
  {
  }

  /** Loading the page: after fetching, the three lists are shown as fetched
      and nothing else of the initial state changes; after a failed fetch,
      the error is shown with empty lists. */
  lemma LoadingThePage(keycloakRoles: seq<RealmRole>, strapiRoles: seq<AdminRole>, m: map<string, MappedValue>)
    ensures Reduce(InitialState, SetData(LoadedPayload(keycloakRoles, strapiRoles, m)))
            == PageState(keycloakRoles, strapiRoles, m, false, None, false)
    ensures Reduce(InitialState, SetError(Some(FetchFailedMessage)))
            == PageState([], [], map[], false, Some(FetchFailedMessage), false)
  {
  }

  /** `SET_ROLE_MAPPING` sets that one key; every other key and every other
      field is as before. */
  lemma SetRoleMappingOnlyKey(state: PageState, k: string, v: MappedValue)
    ensures var r := Reduce(state, SetRoleMapping(k, v));
      && k in r.roleMappings && r.roleMappings[k] == v
      && r.roleMappings.Keys == state.roleMappings.Keys + {k}
      && (forall j :: j in state.roleMappings && j != k ==> r.roleMappings[j] == state.roleMappings[j])
      && r.(roleMappings := state.roleMappings) == state
  {
  }

  /** Picking the same option twice is picking it once. */
  lemma SetRoleMappingIdempotent(state: PageState, k: string, v: MappedValue)
    ensures Reduce(Reduce(state, SetRoleMapping(k, v)), SetRoleMapping(k, v)) == Reduce(state, SetRoleMapping(k, v))
  {
  }

  /** Picks for different roles can be made in either order. */
  lemma SetRoleMappingCommutes(state: PageState, k1: string, v1: MappedValue, k2: string, v2: MappedValue)
    requires k1 != k2
    ensures Reduce(Reduce(state, SetRoleMapping(k1, v1)), SetRoleMapping(k2, v2))
            == Reduce(Reduce(state, SetRoleMapping(k2, v2)), SetRoleMapping(k1, v1))
  {
    var a := Reduce(Reduce(state, SetRoleMapping(k1, v1)), SetRoleMapping(k2, v2));
    var b := Reduce(Reduce(state, SetRoleMapping(k2, v2)), SetRoleMapping(k1, v1));
    assert a.roleMappings == b.roleMappings;
  }

  /** `SET_ERROR` sets the error and ends loading; `SET_SUCCESS` and
      `RESET_SUCCESS` set the success flag; none touches anything else. An
      unknown type leaves the state as it is. */
  lemma FlagActionsFrames(state: PageState, e: Option<string>, kind: string)
    ensures Reduce(state, SetError(e)).error == e && !Reduce(state, SetError(e)).loading
    ensures Reduce(state, SetError(e)).(error := state.error, loading := state.loading) == state
    ensures Reduce(state, SetSuccess).success && Reduce(state, SetSuccess).(success := state.success) == state
    ensures !Reduce(state, ResetSuccess).success && Reduce(state, ResetSuccess).(success := state.success) == state
    ensures Reduce(state, Unknown(kind)) == state
  {
  }

  /** Whether an action can change the mappings. */
  predicate TouchesMappings(a: Action)
  {
    a.SetRoleMapping? || (a.SetData? && a.payload.roleMappings.Some?)
  }

  /** Over any run of dispatches in which no action touches the mappings,
      the body the save button posts stays what it was. */
  lemma {:induction false} MappingsOnlyChangeByMappingActions(state: PageState, actions: seq<Action>)
    requires forall i :: 0 <= i < |actions| ==> !TouchesMappings(actions[i])
    ensures SavePayload(ReduceAll(state, actions)) == SavePayload(state)
    decreases |actions|
  {
    if |actions| > 0 {
      assert !TouchesMappings(actions[0]);
      assert Reduce(state, actions[0]).roleMappings == state.roleMappings;
      MappingsOnlyChangeByMappingActions(Reduce(state, actions[0]), actions[1..]);
    }
  }

  /** The last pick for a role is what the save button posts for it, whatever
      picks for other roles and flag actions follow. */
  lemma {:induction false} LastPickIsSaved(state: PageState, k: string, v: MappedValue, actions: seq<Action>)
    requires forall i :: 0 <= i < |actions| ==> !actions[i].SetData? && !(actions[i].SetRoleMapping? && actions[i].keycloakRole == k)
    ensures var posted := SavePayload(ReduceAll(Reduce(state, SetRoleMapping(k, v)), actions));
      k in posted && posted[k] == v
    decreases |actions|
  {
    if |actions| > 0 {
      var s := Reduce(state, SetRoleMapping(k, v));
      var t := Reduce(s, actions[0]);
      assert k in t.roleMappings && t.roleMappings[k] == v;
      assert t == Reduce(t.(roleMappings := t.roleMappings - {k}), SetRoleMapping(k, v)) by {
        assert t.roleMappings == (t.roleMappings - {k})[k := v];
      }
      LastPickIsSaved(t.(roleMappings := t.roleMappings - {k}), k, v, actions[1..]);
    }
  }

  /** A role shows the blank select value exactly when it has no mapping or
      its mapping is falsy (0 or the empty string); otherwise the value is
      the mapped id as a string. */
  lemma SelectValueBlank(m: map<string, MappedValue>, name: string)
    ensures SelectValue(m, name) == "" <==> name !in m || !TruthyValue(m[name])
    ensures name in m && m[name].Num? && m[name].n != 0 ==> SelectValue(m, name) == DecimalString(m[name].n)
  {
  }

  /** The older select value is blank in the same cases, and otherwise is the
      mapped value itself; converting it gives the current select value. */
  lemma SelectVariantsAgree(m: map<string, MappedValue>, name: string)
    ensures SelectValueRaw(m, name) == Str("") <==> SelectValue(m, name) == ""
    ensures SelectValueRaw(m, name) != Str("") ==> SelectValueRaw(m, name) == m[name]
    ensures SelectValue(m, name) == (match SelectValueRaw(m, name)
                                     case Num(n) => DecimalString(n)
                                     case Str(s) => s)
  {
  }

  /** A mapping of 0 shows blank (the falsy id is hidden), where 7 shows "7". */
  lemma SelectValueExamples(m: map<string, MappedValue>)
    requires m == map["EDITOR" := Num(0), "ADMIN" := Num(7)]
    ensures SelectValue(m, "EDITOR") == "" && SelectValue(m, "ADMIN") == "7" && SelectValue(m, "VIEWER") == ""
    ensures SelectValueRaw(m, "ADMIN") == Num(7)
  {
  }
}
