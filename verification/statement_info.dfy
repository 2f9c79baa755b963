/**
 * The information bean of one prepared statement: its SQL text, fixed at
 * construction, and the parameter values bound so far, keyed by zero-based
 * position.
 */
module StatementInfo {
  import opened Values
  import opened Reconstruction

  class PreparedStatementInformation<T> {
    const sql: string
    var parameterValues: map<int, Value<T>>

    /** `getSql` returns the text given here for the object's whole life: `sql` is a constant. */
    constructor (sql: string)
      ensures this.sql == sql && GetSql() == sql
      ensures parameterValues == map[]
      ensures Valid()
    {
      this.sql := sql;
      parameterValues := map[];
    }

    /**
     * Every stored binding is a `new Value(value)`: the empty `Value` never
     * sits in the map, it only stands in for an absent key while the SQL is
     * reconstructed.
     */
    predicate Valid()
      reads this
    {
      forall k :: k in parameterValues ==> parameterValues[k].Bound?
    }

    function GetSql(): string {
      sql
    }

    /** The bindings made so far: one bound value per key that has been set, and no other key. */
    function GetParameterValues(): (r: map<int, Value<T>>)
      requires Valid()
      reads this
      ensures r.Keys == parameterValues.Keys
      ensures forall k :: k in r ==> r[k] == parameterValues[k] && r[k].Bound?
    {
      parameterValues
    }

    /**
     * Binds the one-based `position`: key `position - 1` (32-bit) now maps
     * to the value, whatever it held before; every other key is unchanged.
     */
    method SetParameterValue(position: int32, value: T)
      requires Valid()
      modifies this
      ensures Valid()
      ensures parameterValues == old(parameterValues)[KeyOf(position) := Bound(value)]
      ensures forall k :: k != KeyOf(position) ==> Lookup(parameterValues, k) == Lookup(old(parameterValues), k)
      ensures KeyOf(position) in old(parameterValues) ==> |parameterValues| == |old(parameterValues)|
      ensures KeyOf(position) !in old(parameterValues) ==> |parameterValues| == |old(parameterValues)| + 1
    {
      parameterValues := parameterValues[KeyOf(position) := Bound(value)];
    }

    /**
     * The SQL text with placeholders substituted, scanned one character at a
     * time. Changes nothing, so two calls with no binding in between agree.
     */
    method GetSqlWithValues(render: Value<T> -> string) returns (s: string)
      ensures s == Reconstruct(sql, parameterValues, render)
    {
      var sb := "";
      var currentParameter := 0;
      var pos := 0;
      while pos < |sql|
        invariant 0 <= pos <= |sql|
        invariant currentParameter == Consumed(sql[..pos], |parameterValues|)
        invariant sb == Reconstruct(sql[..pos], parameterValues, render)
      {
        var character := sql[pos];
        assert sql[..pos + 1][..pos] == sql[..pos];
        if character == '?' && currentParameter <= |parameterValues| {
          sb := sb + render(Lookup(parameterValues, currentParameter));
          currentParameter := currentParameter + 1;
        } else {
          sb := sb + [character];
        }
        pos := pos + 1;
      }
      assert sql[..pos] == sql;
      s := sb;
    }
  }

  /**
   * Binding one position twice through `setParameterValue` leaves only the
   * second value: the map and the reconstructed SQL are those of binding the
   * second value alone.
   */
  method RebindThenReconstruct<T>(info: PreparedStatementInformation<T>, position: int32, first: T, second: T,
                                  render: Value<T> -> string)
    returns (s: string)
    requires info.Valid()
    modifies info
    ensures info.Valid()
    ensures info.parameterValues == old(info.parameterValues)[KeyOf(position) := Bound(second)]
    ensures s == Reconstruct(info.sql, old(info.parameterValues)[KeyOf(position) := Bound(second)], render)
  {
    ghost var before := info.parameterValues;
    info.SetParameterValue(position, first);
    info.SetParameterValue(position, second);
    RebindKeepsLatest(info.sql, before, render, KeyOf(position), first, second);
    s := info.GetSqlWithValues(render);
  }

  /** Reconstruction reads the bean without changing it: asked twice, it answers the same. */
  method ReconstructTwice<T>(info: PreparedStatementInformation<T>, render: Value<T> -> string)
    returns (first: string, second: string)
    ensures first == second
    ensures first == Reconstruct(info.sql, info.parameterValues, render)
  {
    first := info.GetSqlWithValues(render);
    second := info.GetSqlWithValues(render);
  }
}
