/** `NameValueCollectionConverter`: a write-only converter that writes a
    `NameValueCollection` as one object with a member per key, the key's values
    joined into a single string. */
module NameValueCollectionConverter {
  import opened Wrappers
  import opened Json
  import opened JsonOptions

  /** One key of the collection with what `GetValues(key)` returns for it:
      null, or an array whose elements may themselves be null. */
  datatype Entry = Entry(key: string, values: Option<seq<Option<string>>>)

  /** A `NameValueCollection` never holds the same key twice. */
  predicate DistinctKeys(entries: seq<Entry>) {
    forall i, j | 0 <= i < j < |entries| :: entries[i].key != entries[j].key
  }

  /** `Read`: not implemented, whatever the input. */
  function Read(reader: Reader): (r: Result<seq<Entry>, Exception>)
    ensures r.Failure? && r.error == NotImplemented
  {
    Failure(NotImplemented)
  }

  // ---- What the join computes, stated value by value ----

  /** Some value among the first `n` is neither null nor empty. */
  predicate AnyValue(values: seq<Option<string>>, n: nat)
    requires n <= |values|
  {
    exists j | 0 <= j < n :: !IsNullOrEmpty(values[j])
  }

  /** What value `j` contributes: nothing when null or empty, otherwise the
      value itself, preceded by ", " unless it is the very first value of the
      array (whether or not an earlier value contributed anything). */
  function Piece(values: seq<Option<string>>, j: nat): string
    requires j < |values|
  {
    if IsNullOrEmpty(values[j]) then ""
    else if j == 0 then values[j].value
    else ", " + values[j].value
  }

  /** The contributions of the first `n` values, concatenated. */
  function Pieces(values: seq<Option<string>>, n: nat): string
    requires n <= |values|
  {
    if n == 0 then "" else Pieces(values, n - 1) + Piece(values, n - 1)
  }

  /** The joined value written for one key: null when the key has no value
      that is neither null nor empty, otherwise every contribution in order. */
  function Joined(values: Option<seq<Option<string>>>): (r: Option<string>)
    ensures r.None? <==>
      values.None? || forall j | 0 <= j < |values.value| :: IsNullOrEmpty(values.value[j])
  {
    if values.None? || !AnyValue(values.value, |values.value|) then None
    else Some(Pieces(values.value, |values.value|))
  }

  /** The contributions of values that are all null or empty add up to nothing. */
  lemma {:induction false} PiecesOfNothing(values: seq<Option<string>>, n: nat)
    requires n <= |values|
    requires !AnyValue(values, n)
    ensures Pieces(values, n) == ""
  {
    if n > 0 {
      assert IsNullOrEmpty(values[n - 1]);
      assert !AnyValue(values, n - 1) by {
        forall j | 0 <= j < n - 1 ensures IsNullOrEmpty(values[j]) {
          assert 0 <= j < n;
        }
      }
      PiecesOfNothing(values, n - 1);
    }
  }

  /** One more value visited: a null or empty value leaves the joined value as
      it was; any other value appends its contribution to it, the running
      value being null until the first contribution. */
  lemma PiecesStep(values: seq<Option<string>>, j: nat, running: Option<string>)
    requires j < |values|
    requires running == if AnyValue(values, j) then Some(Pieces(values, j)) else None
    ensures IsNullOrEmpty(values[j]) ==>
      running == if AnyValue(values, j + 1) then Some(Pieces(values, j + 1)) else None
    ensures !IsNullOrEmpty(values[j]) ==>
      AnyValue(values, j + 1) && Concat(running, Piece(values, j)) == Pieces(values, j + 1)
  {
    if IsNullOrEmpty(values[j]) {
      assert AnyValue(values, j + 1) == AnyValue(values, j) by {
        if AnyValue(values, j + 1) {
          var k :| 0 <= k < j + 1 && !IsNullOrEmpty(values[k]);
          assert k < j;
        }
      }
      assert Piece(values, j) == "";
      assert Pieces(values, j + 1) == Pieces(values, j);
    } else {
      assert 0 <= j < j + 1 && !IsNullOrEmpty(values[j]);
      if running.None? {
        PiecesOfNothing(values, j);
        assert Pieces(values, j + 1) == "" + Piece(values, j);
      }
    }
  }

  // ---- Relation to a plain ", " join ----

  /** `String.Join(", ", parts)`. */
  function JoinWithComma(parts: seq<string>): string
  {
    if parts == [] then ""
    else if |parts| == 1 then parts[0]
    else JoinWithComma(parts[..|parts| - 1]) + ", " + parts[|parts| - 1]
  }

  /** The values among the first `n` that are neither null nor empty, in order. */
  function Present(values: seq<Option<string>>, n: nat): (r: seq<string>)
    requires n <= |values|
    ensures r == [] <==> !AnyValue(values, n)
  {
    if n == 0 then []
    else
      var earlier := Present(values, n - 1);
      AnyValueStep(values, n - 1);
      if IsNullOrEmpty(values[n - 1]) then earlier else earlier + [values[n - 1].value]
  }

  /** Whether a value is present among the first `n + 1` is decided by the
      first `n` and value `n`. */
  lemma AnyValueStep(values: seq<Option<string>>, n: nat)
    requires n < |values|
    ensures AnyValue(values, n + 1) <==> AnyValue(values, n) || !IsNullOrEmpty(values[n])
  {
    if AnyValue(values, n + 1) {
      var k :| 0 <= k < n + 1 && !IsNullOrEmpty(values[k]);
      if k < n { assert AnyValue(values, n); }
    }
    if AnyValue(values, n) {
      var k :| 0 <= k < n && !IsNullOrEmpty(values[k]);
      assert 0 <= k < n + 1;
    }
  }

  /** Appending one part to a ", " join. */
  lemma JoinWithCommaAppend(parts: seq<string>, v: string)
    ensures JoinWithComma(parts + [v]) == if parts == [] then v else JoinWithComma(parts) + ", " + v
  {
    assert (parts + [v])[..|parts + [v]| - 1] == parts;
  }

  /** The extra ", " the join starts with when the first value is null or
      empty and some value among the first `n` is present. */
  function LeadingGap(values: seq<Option<string>>, n: nat): string
    requires n <= |values|
  {
    if AnyValue(values, n) && IsNullOrEmpty(values[0]) then ", " else ""
  }

  ghost predicate CommaJoinAt(values: seq<Option<string>>, n: nat)
    requires n <= |values|
  {
    Pieces(values, n) == LeadingGap(values, n) + JoinWithComma(Present(values, n))
  }

  /** The contributions add up to the ", " join of the present values, preceded
      by one extra ", " exactly when the first value of the array is null or
      empty and a later one is present. */
  lemma {:induction false} PiecesAreCommaJoin(values: seq<Option<string>>, n: nat)
    requires n <= |values|
    ensures CommaJoinAt(values, n)
  {
    if n > 0 {
      PiecesAreCommaJoin(values, n - 1);
      CommaJoinStep(values, n - 1);
    }
  }

  /** The inductive step of `PiecesAreCommaJoin`, from `n` values to `n + 1`. */
  lemma CommaJoinStep(values: seq<Option<string>>, n: nat)
    requires n < |values|
    requires CommaJoinAt(values, n)
    ensures CommaJoinAt(values, n + 1)
  {
    if IsNullOrEmpty(values[n]) {
      AbsentStep(values, n);
    } else {
      PresentStep(values, n);
    }
  }

  /** The inductive step of `PiecesAreCommaJoin` for a null or empty value `n`. */
  lemma AbsentStep(values: seq<Option<string>>, n: nat)
    requires n < |values| && IsNullOrEmpty(values[n])
    requires Pieces(values, n) == LeadingGap(values, n) + JoinWithComma(Present(values, n))
    ensures Pieces(values, n + 1) == LeadingGap(values, n + 1) + JoinWithComma(Present(values, n + 1))
  {
    AnyValueStep(values, n);
    assert Piece(values, n) == "";
    assert Pieces(values, n + 1) == Pieces(values, n);
  }

  /** The inductive step of `PiecesAreCommaJoin` for a present value `n`. */
  lemma PresentStep(values: seq<Option<string>>, n: nat)
    requires n < |values| && !IsNullOrEmpty(values[n])
    requires Pieces(values, n) == LeadingGap(values, n) + JoinWithComma(Present(values, n))
    ensures Pieces(values, n + 1) == LeadingGap(values, n + 1) + JoinWithComma(Present(values, n + 1))
  {
    AnyValueStep(values, n);
    JoinWithCommaAppend(Present(values, n), values[n].value);
    assert Present(values, n + 1) == Present(values, n) + [values[n].value];
    assert Pieces(values, n + 1) == Pieces(values, n) + Piece(values, n);
    if n == 0 {
      PresentFirst(values);
    } else if Present(values, n) == [] {
      PresentAfterGap(values, n);
    } else {
      PresentAfterOthers(values, n);
    }
  }

  /** The step that reaches the first value when it is present: no gap, the value alone. */
  lemma PresentFirst(values: seq<Option<string>>)
    requires 0 < |values| && !IsNullOrEmpty(values[0])
    requires Pieces(values, 1) == Pieces(values, 0) + Piece(values, 0)
    requires JoinWithComma(Present(values, 1)) == values[0].value
    ensures Pieces(values, 1) == LeadingGap(values, 1) + JoinWithComma(Present(values, 1))
  {
    assert LeadingGap(values, 1) == "";
    assert Pieces(values, 1) == "" + values[0].value;
  }

  /** The step that reaches the first present value after absent ones: the gap is one `", "`. */
  lemma PresentAfterGap(values: seq<Option<string>>, n: nat)
    requires 0 < n < |values| && !IsNullOrEmpty(values[n]) && Present(values, n) == []
    requires AnyValue(values, n + 1)
    requires Pieces(values, n) == LeadingGap(values, n) + JoinWithComma(Present(values, n))
    requires Pieces(values, n + 1) == Pieces(values, n) + Piece(values, n)
    requires JoinWithComma(Present(values, n + 1)) == values[n].value
    ensures Pieces(values, n + 1) == LeadingGap(values, n + 1) + JoinWithComma(Present(values, n + 1))
  {
    assert !AnyValue(values, n);
    assert IsNullOrEmpty(values[0]);
    assert LeadingGap(values, n + 1) == ", ";
    assert Pieces(values, n) == "";
  }

  /** The step that reaches a present value after others: one more `", "` and the value. */
  lemma PresentAfterOthers(values: seq<Option<string>>, n: nat)
    requires 0 < n < |values| && !IsNullOrEmpty(values[n]) && Present(values, n) != []
    requires AnyValue(values, n + 1) && AnyValue(values, n)
    requires Pieces(values, n) == LeadingGap(values, n) + JoinWithComma(Present(values, n))
    requires Pieces(values, n + 1) == Pieces(values, n) + Piece(values, n)
    requires JoinWithComma(Present(values, n + 1)) == JoinWithComma(Present(values, n)) + ", " + values[n].value
    ensures Pieces(values, n + 1) == LeadingGap(values, n + 1) + JoinWithComma(Present(values, n + 1))
  {
    var lead := LeadingGap(values, n);
    var joined := JoinWithComma(Present(values, n));
    var v := values[n].value;
    assert LeadingGap(values, n + 1) == lead;
    assert Piece(values, n) == ", " + v;
    // stated in isolation: inside this lemma's context the regrouping is too costly
    ConcatRegroup(lead, joined, ", ", v);
  }

  /** Regrouping a four-part string concatenation. */
  lemma ConcatRegroup(a: string, b: string, c: string, d: string)
    ensures (a + b) + (c + d) == a + (b + c + d)
  {
  }

  /** The joined value, stated through a plain ", " join of the present values. */
  ghost predicate JoinedAsCommaJoin(values: seq<Option<string>>) {
    var present := Present(values, |values|);
    if present == [] then Joined(Some(values)) == None
    else Joined(Some(values)) == Some((if IsNullOrEmpty(values[0]) then ", " else "") + JoinWithComma(present))
  }

  /** The joined value of an array is null when no value is present, and
      otherwise the ", " join of its present values, with one leading ", "
      when the array's first value is null or empty. Only when the first
      value is present is it exactly the ", " join of the present values. */
  lemma JoinedIsCommaJoin(values: seq<Option<string>>)
    ensures JoinedAsCommaJoin(values)
  {
    PiecesAreCommaJoin(values, |values|);
  }

  /** Worked cases of the join, each shown by unfolding it. */
  lemma JoinedExamples()
    ensures Joined(Some([Some(""), Some("b")])) == Some(", b")
    ensures Joined(Some([Some("a"), Some(""), Some("c")])) == Some("a, c")
    ensures Joined(Some([Some("a"), Some("b")])) == Some("a, b")
    ensures Joined(Some([None, Some("")])) == None
    ensures Joined(Some([])) == None
    ensures Joined(None) == None
  {
    var v1: seq<Option<string>> := [Some(""), Some("b")];
    assert !IsNullOrEmpty(v1[1]);
    assert Pieces(v1, 2) == ", b";
    var v2: seq<Option<string>> := [Some("a"), Some(""), Some("c")];
    assert !IsNullOrEmpty(v2[0]);
    assert Pieces(v2, 3) == "a, c";
    var v3: seq<Option<string>> := [Some("a"), Some("b")];
    assert !IsNullOrEmpty(v3[0]);
    assert Pieces(v3, 2) == "a, b";
  }

  // ---- The code's loop ----

  /** The inner loop over one key's values. `added` counts every value visited,
      empty ones included, so it equals the loop index. */
  method FormatValues(values: Option<seq<Option<string>>>) returns (formattedValue: Option<string>)
    ensures formattedValue == Joined(values)
  {
    formattedValue := None;
    if values.Some? && |values.value| > 0 {
      var vs := values.value;
      var added := 0;
      var j := 0;
      while j < |vs|
        invariant 0 <= j <= |vs|
        invariant added == j
        invariant formattedValue == if AnyValue(vs, j) then Some(Pieces(vs, j)) else None
      {
        ghost var previous := formattedValue;
        if !IsNullOrEmpty(vs[j]) {
          if added == 0 {
            formattedValue := Some(Concat(formattedValue, vs[j].value));
          } else {
            formattedValue := Some(Concat(formattedValue, ", " + vs[j].value));
          }
        }
        PiecesStep(vs, j, previous);
        added := added + 1;
        j := j + 1;
      }
    }
  }

  /** The object a `Dictionary<string, string>` is written as by the engine's
      default options: one member per entry, in insertion order, a null value
      written as `null`. */
  function DictionaryObject(dict: seq<(string, Option<string>)>): Value
  {
    Obj(seq(|dict|, i requires 0 <= i < |dict| => Field(dict[i].0, OfString(dict[i].1))))
  }

  /** `Write`: nothing for a null collection; otherwise one member per key, in
      key-index order, holding the key's joined value or `null`. The nested
      serialization is given no options, so the null members are written even
      when `options` ignores nulls. */
  method Write(value: Option<seq<Entry>>, options: Options) returns (w: Written)
    requires value.Some? ==> DistinctKeys(value.value)
    ensures w.Nothing? <==> value.None?
    ensures value.Some? ==>
      && w.Wrote? && w.value.Obj?
      && |w.value.fields| == |value.value|
      && forall i | 0 <= i < |value.value| ::
           w.value.fields[i] == Field(value.value[i].key, OfString(Joined(value.value[i].values)))
    ensures value.Some? ==> forall i, k | 0 <= i < k < |w.value.fields| ::
      w.value.fields[i].name != w.value.fields[k].name
  {
    if value.None? {
      return Nothing;
    }
    var entries := value.value;
    var val: seq<(string, Option<string>)> := [];
    for i := 0 to |entries|
      invariant |val| == i
      invariant forall k | 0 <= k < i :: val[k] == (entries[k].key, Joined(entries[k].values))
    {
      var formattedValue := FormatValues(entries[i].values);
      val := val + [(entries[i].key, formattedValue)];
    }
    w := Wrote(DictionaryObject(val));
  }
}
