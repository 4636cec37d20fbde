/** Custom variables as the platform returns them. The SDK declares the field as
    `interface{}`: the platform sends an empty collection as a JSON array, which decodes to
    a slice, and any other collection as a JSON object, which decodes to a map whose values
    are strings. The provider stores them in Terraform state as a
    `map[string]string`. */
module CustomVariables {
  import opened Values

  /** The two shapes the decoded field takes. */
  datatype CustomVariables =
    | ListForm(items: seq<Value>)
    | MapForm(entries: map<string, Value>)

  predicate AllStrings(m: map<string, Value>)
  {
    forall k :: k in m ==> m[k].Str?
  }

  /** The `default:` branch asserts every value to be a string; a map that holds anything else
      makes the provider panic, so well-typed custom variables are those where it does not. */
  predicate WellTyped(cv: CustomVariables)
  {
    cv.MapForm? ==> AllStrings(cv.entries)
  }

  /** The string map holding exactly the entries of `m`, each value unwrapped. */
  function StringValues(m: map<string, Value>): (r: map<string, string>)
    requires AllStrings(m)
    ensures r.Keys == m.Keys
    ensures forall k :: k in r ==> m[k] == Str(r[k])
  {
    map k | k in m :: m[k].s
  }

  /** The state the provider writes for the custom variables it read. */
  function StateOf(cv: CustomVariables): (state: map<string, string>)
    requires WellTyped(cv)
    ensures cv.ListForm? ==> state == map[]
    ensures cv.MapForm? ==> state.Keys == cv.entries.Keys
    ensures cv.MapForm? ==> forall k :: k in state ==> cv.entries[k] == Str(state[k])
  {
    match cv
    case ListForm(_) => map[]
    case MapForm(entries) => StringValues(entries)
  }

  /** The value sent to the platform for the custom variables held in state
      (`expandInstanceArray` builds a `map[string]string`, which the platform returns as an
      object of strings). */
  function Expand(state: map<string, string>): (cv: CustomVariables)
    ensures WellTyped(cv)
  {
    MapForm(map k | k in state :: Str(state[k]))
  }

  /** The `for k, v := range m { r[k] = v.(string) }` loop: visits the keys in an arbitrary
      order and copies each value as a string. */
  method CopyStringValues(m: map<string, Value>) returns (r: map<string, string>)
    requires AllStrings(m)
    ensures r == StringValues(m)
  {
    r := map[];
    var rest := m.Keys;
    while rest != {}
      invariant rest <= m.Keys
      invariant r.Keys == m.Keys - rest
      invariant forall k :: k in r ==> m[k] == Str(r[k])
      decreases rest
    {
      var k :| k in rest;
      r := r[k := m[k].s];
      rest := rest - {k};
    }
  }

  /** The type switch on the custom variables: an array becomes the empty map, a map is
      copied as strings. */
  method FlattenCustomVariables(cv: CustomVariables) returns (r: map<string, string>)
    requires WellTyped(cv)
    ensures r == StateOf(cv)
  {
    match cv {
      case ListForm(_) =>
        r := map[];
      case MapForm(entries) =>
        r := CopyStringValues(entries);
    }
  }

  /** Sending the state and reading it back gives the same state. */
  lemma StateOfExpand(state: map<string, string>)
    ensures StateOf(Expand(state)) == state
  {
  }

  /** Reading and sending back normalises the array form to an empty map and leaves a map
      unchanged. */
  lemma ExpandStateOf(cv: CustomVariables)
    requires WellTyped(cv)
    ensures Expand(StateOf(cv)) == if cv.ListForm? then MapForm(map[]) else cv
  {
    if cv.MapForm? {
      var back := Expand(StateOf(cv));
      assert back.entries.Keys == cv.entries.Keys;
      assert forall k :: k in cv.entries ==> back.entries[k] == cv.entries[k];
    }
  }
}
