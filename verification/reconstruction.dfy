/**
 * What `getSqlWithValues` computes, as functions of the SQL text, the
 * parameter map and the rendering of a `Value`, and what is proved about it.
 *
 * The scan keeps a counter of placeholders consumed so far; a `?` is
 * substituted only while that counter is at most the NUMBER of bound keys
 * (not the highest key), and it is not aware of quoted SQL literals.
 */
module Reconstruction {
  import opened Values

  function Min(a: int, b: int): int {
    if a <= b then a else b
  }

  /** The number of `?` characters in `s`. */
  function Occurrences(s: string): nat {
    if s == [] then 0
    else Occurrences(s[..|s| - 1]) + (if s[|s| - 1] == '?' then 1 else 0)
  }

  /**
   * The value of the scan's counter `currentParameter` after reading `s`
   * against a map with `size` keys: a `?` bumps it only while it is at most
   * `size`. So exactly min(#`?`, size + 1) substitutions take place.
   */
  function Consumed(s: string, size: nat): (n: nat)
    ensures n == Min(Occurrences(s), size + 1)
  {
    if s == [] then 0
    else
      var k := Consumed(s[..|s| - 1], size);
      if s[|s| - 1] == '?' && k <= size then k + 1 else k
  }

  /** The output of the scan over `sql`, built one character at a time from the left. */
  function Reconstruct<T>(sql: string, values: map<int, Value<T>>, render: Value<T> -> string): string {
    if sql == [] then ""
    else
      var init, c := sql[..|sql| - 1], sql[|sql| - 1];
      var k := Consumed(init, |values|);
      Reconstruct(init, values, render)
        + (if c == '?' && k <= |values| then render(Lookup(values, k)) else [c])
  }

  /**
   * Reference definition, character by character: the character at index
   * `i` is copied unless it is the k-th `?` (0-based, k = number of `?`
   * before it) with k <= number of bound keys, in which case it becomes the
   * rendering of key k, or of the empty `Value` when k is not bound.
   */
  function Piece<T>(sql: string, i: nat, values: map<int, Value<T>>, render: Value<T> -> string): string
    requires i < |sql|
  {
    var k := Occurrences(sql[..i]);
    if sql[i] == '?' && k <= |values| then render(Lookup(values, k)) else [sql[i]]
  }

  function Pieces<T>(sql: string, values: map<int, Value<T>>, render: Value<T> -> string): seq<string> {
    seq(|sql|, i requires 0 <= i < |sql| => Piece(sql, i, values, render))
  }

  /** The concatenation of `parts`, in order. */
  function Concat(parts: seq<string>): string {
    if parts == [] then "" else Concat(parts[..|parts| - 1]) + parts[|parts| - 1]
  }

  /** The scan's output is the per-character reference definition, concatenated in order. */
  lemma {:induction false} ReconstructIsPiecewise<T>(sql: string, values: map<int, Value<T>>, render: Value<T> -> string)
    ensures Reconstruct(sql, values, render) == Concat(Pieces(sql, values, render))
  {
    if sql != [] {
      var init := sql[..|sql| - 1];
      ReconstructIsPiecewise(init, values, render);
      var ps := Pieces(sql, values, render);
      forall i | 0 <= i < |init|
        ensures ps[i] == Piece(init, i, values, render)
      {
        assert sql[..i] == init[..i];
      }
      assert ps[..|ps| - 1] == Pieces(init, values, render);
      assert sql[..|sql| - 1] == init;
    }
  }

  /** A prefix never holds more `?` than the whole text. */
  lemma {:induction false} OccurrencesPrefix(s: string, j: nat)
    requires j <= |s|
    ensures Occurrences(s[..j]) <= Occurrences(s)
  {
    if j < |s| {
      var init := s[..|s| - 1];
      assert init[..j] == s[..j];
      OccurrencesPrefix(init, j);
    } else {
      assert s[..j] == s;
    }
  }

  /** The `?` at index i is preceded by strictly fewer `?` than the text holds. */
  lemma PlaceholderIndexBelowCount(s: string, i: nat)
    requires i < |s| && s[i] == '?'
    ensures Occurrences(s[..i]) < Occurrences(s)
  {
    var p := s[..i + 1];
    assert p[..|p| - 1] == s[..i];
    OccurrencesPrefix(s, i + 1);
  }

  /** A key set holding 0 .. n-1 has at least n keys. */
  lemma {:induction false} CoverSize(keys: set<int>, n: nat)
    requires forall k :: 0 <= k < n ==> k in keys
    ensures n <= |keys|
  {
    if n > 0 {
      CoverSize(keys - {n - 1}, n - 1);
    }
  }

  /**
   * With keys 0 .. N-1 all bound, N the number of `?` in the text, every
   * placeholder is replaced by the rendering of its own binding: the
   * `<= size()` guard never stops a substitution.
   */
  lemma FullyBoundReplacesAll<T>(sql: string, values: map<int, Value<T>>, render: Value<T> -> string)
    requires forall k :: 0 <= k < Occurrences(sql) ==> k in values
    ensures forall i :: 0 <= i < |sql| && sql[i] == '?' ==>
      Occurrences(sql[..i]) in values &&
      Pieces(sql, values, render)[i] == render(values[Occurrences(sql[..i])])
    ensures Reconstruct(sql, values, render) == Concat(Pieces(sql, values, render))
  {
    CoverSize(values.Keys, Occurrences(sql));
    forall i | 0 <= i < |sql| && sql[i] == '?'
      ensures Occurrences(sql[..i]) in values
      ensures Pieces(sql, values, render)[i] == render(values[Occurrences(sql[..i])])
    {
      PlaceholderIndexBelowCount(sql, i);
    }
    ReconstructIsPiecewise(sql, values, render);
  }

  /**
   * Once the store is exhausted, placeholders stay literal: the k-th `?`
   * with k greater than the number of bound keys is copied as `?`.
   */
  lemma PlaceholderBeyondStoreIsLiteral<T>(sql: string, values: map<int, Value<T>>, render: Value<T> -> string, i: nat)
    requires i < |sql| && sql[i] == '?' && Occurrences(sql[..i]) > |values|
    ensures Pieces(sql, values, render)[i] == "?"
    ensures Reconstruct(sql, values, render) == Concat(Pieces(sql, values, render))
  {
    ReconstructIsPiecewise(sql, values, render);
  }

  /**
   * One character appended to the SQL: the defining step of the scan,
   * restated for a text written as `s + [c]`.
   */
  lemma ReconstructStep<T>(s: string, c: char, values: map<int, Value<T>>, render: Value<T> -> string)
    ensures var k := Consumed(s, |values|);
      Reconstruct(s + [c], values, render)
        == Reconstruct(s, values, render) + (if c == '?' && k <= |values| then render(Lookup(values, k)) else [c])
    ensures var k := Consumed(s, |values|);
      Consumed(s + [c], |values|) == if c == '?' && k <= |values| then k + 1 else k
  {
    assert (s + [c])[..|s|] == s;
  }

  /**
   * Text without `?` appended to the SQL is copied verbatim after what the
   * prefix produced, and it does not move the placeholder counter.
   */
  lemma {:induction false} AppendPlain<T>(p: string, q: string, values: map<int, Value<T>>, render: Value<T> -> string)
    requires forall i :: 0 <= i < |q| ==> q[i] != '?'
    ensures Reconstruct(p + q, values, render) == Reconstruct(p, values, render) + q
    ensures Consumed(p + q, |values|) == Consumed(p, |values|)
  {
    if q == [] {
      assert p + q == p;
    } else {
      var q', c := q[..|q| - 1], q[|q| - 1];
      assert q == q' + [c];
      var pq' := p + q';
      assert p + q == pq' + [c];
      AppendPlain(p, q', values, render);
      ReconstructStep(pq', c, values, render);
    }
  }

  /** A `?`-free text followed by one `?`: the step of `AppendPlain` and then `ReconstructStep`. */
  lemma PlainThenPlaceholder<T>(p: string, q: string, values: map<int, Value<T>>, render: Value<T> -> string)
    requires forall i :: 0 <= i < |q| ==> q[i] != '?'
    ensures var k := Consumed(p, |values|);
      Reconstruct(p + q + "?", values, render)
        == Reconstruct(p, values, render) + q + (if k <= |values| then render(Lookup(values, k)) else "?")
    ensures var k := Consumed(p, |values|);
      Consumed(p + q + "?", |values|) == if k <= |values| then k + 1 else k
  {
    AppendPlain(p, q, values, render);
    ReconstructStep(p + q, '?', values, render);
    assert p + q + "?" == (p + q) + ['?'];
  }

  /** A statement without `?` comes back unchanged, whatever is bound. */
  lemma {:induction false} NoPlaceholderUnchanged<T>(sql: string, values: map<int, Value<T>>, render: Value<T> -> string)
    requires forall i :: 0 <= i < |sql| ==> sql[i] != '?'
    ensures Reconstruct(sql, values, render) == sql
  {
    AppendPlain([], sql, values, render);
    assert [] + sql == sql;
  }

  /**
   * With nothing bound, only the first `?` is substituted, by the empty
   * value's text; the second stays literal. `a` and `b` are any texts
   * without `?` (for instance `a=` and ` and b=`).
   */
  lemma EmptyStoreExample<T>(a: string, b: string, render: Value<T> -> string)
    requires forall i :: 0 <= i < |a| ==> a[i] != '?'
    requires forall i :: 0 <= i < |b| ==> b[i] != '?'
    ensures Reconstruct(a + "?" + b + "?", map[], render) == a + render(Unset) + b + "?"
  {
    var m: map<int, Value<T>> := map[];
    assert [] + a == a;
    PlainThenPlaceholder([], a, m, render);
    PlainThenPlaceholder(a + "?", b, m, render);
  }

  /**
   * Binding only position 3 (key 2, one key in all) renders the first two
   * `?` as unset and leaves the third literal, although key 2 is bound.
   * `a`, `b` and `c` are any texts without `?`.
   */
  lemma SparseBindingExample<T>(a: string, b: string, c: string, render: Value<T> -> string, v: T)
    requires forall i :: 0 <= i < |a| ==> a[i] != '?'
    requires forall i :: 0 <= i < |b| ==> b[i] != '?'
    requires forall i :: 0 <= i < |c| ==> c[i] != '?'
    ensures Reconstruct(a + "?" + b + "?" + c + "?", map[2 := Bound(v)], render)
         == a + render(Unset) + b + render(Unset) + c + "?"
  {
    var m := map[2 := Bound(v)];
    var u := render(Unset);
    assert |m| == 1;
    assert Lookup(m, 0) == Unset && Lookup(m, 1) == Unset;
    assert [] + a == a;
    PlainThenPlaceholder([], a, m, render);
    PlainThenPlaceholder(a + "?", b, m, render);
    PlainThenPlaceholder(a + "?" + b + "?", c, m, render);
  }

  /** Rebinding a position: only the later value is ever rendered. */
  lemma RebindKeepsLatest<T>(sql: string, values: map<int, Value<T>>, render: Value<T> -> string, k: int, first: T, second: T)
    ensures Reconstruct(sql, values[k := Bound(first)][k := Bound(second)], render)
         == Reconstruct(sql, values[k := Bound(second)], render)
  {
    assert values[k := Bound(first)][k := Bound(second)] == values[k := Bound(second)];
  }
}
