/** Column alignment against the classifier's declared schema (app.py:104-109):
    every expected column the frame lacks is added in place with value 0, then
    the frame is replaced by its projection onto the expected columns, in the
    expected order. Without a declared schema the frame is left alone. */
module Alignment {
  import opened Wrappers
  import opened Frames

  /** The value a column ends up with after alignment: the frame's own value,
      or 0 for a column the frame lacked. */
  function ValueOrZero(cols: seq<Column>, name: string): Value {
    match Get(cols, name)
    case Some(v) => v
    case None => Num(0)
  }

  /** The expected labels the frame lacks: `set(expected) - set(df.columns)`. */
  function Missing(cols: seq<Column>, expected: seq<string>): (m: set<string>)
    ensures forall n :: n in m <==> n in expected && n !in Names(cols)
  {
    Elems(expected) - Elems(Names(cols))
  }

  /** The columns of the aligned frame, given `feature_names_in_` when the
      classifier declares it. */
  function Aligned(cols: seq<Column>, expected: Option<seq<string>>): (r: seq<Column>)
    ensures expected.None? ==> r == cols
    ensures expected.Some? ==> |r| == |expected.value|
    ensures expected.Some? ==> forall k :: 0 <= k < |r| ==> r[k].name == expected.value[k]
    // a column the frame had keeps its value; a column it lacked holds 0
    ensures expected.Some? ==> forall k :: 0 <= k < |r| && r[k].name in Names(cols) ==> r[k] in cols
    ensures expected.Some? ==> forall k :: 0 <= k < |r| && r[k].name !in Names(cols) ==> r[k].value == Num(0)
  {
    match expected
    case None => cols
    case Some(names) => seq(|names|, k requires 0 <= k < |names| => Column(names[k], ValueOrZero(cols, names[k])))
  }

  /** The aligned frame has exactly the expected columns, in the expected
      order; so every other column is dropped. */
  lemma AlignedSchema(cols: seq<Column>, names: seq<string>)
    ensures Names(Aligned(cols, Some(names))) == names
    ensures forall n :: n in Names(Aligned(cols, Some(names))) <==> n in names
  {
  }

  /** Alignment keeps the value of every expected column that was present,
      gives 0 to every expected column that was missing, and leaves no other
      column to look up. */
  lemma AlignedLookup(cols: seq<Column>, names: seq<string>, n: string)
    ensures n in names && n in Names(cols) ==> Get(Aligned(cols, Some(names)), n) == Get(cols, n)
    ensures n in names && n !in Names(cols) ==> Get(Aligned(cols, Some(names)), n) == Some(Num(0))
    ensures n !in names ==> Get(Aligned(cols, Some(names)), n) == None
  {
    var r := Aligned(cols, Some(names));
    AlignedSchema(cols, names);
    if n in names {
      GetUniform(r, n, ValueOrZero(cols, n));
    }
  }

  /** Aligning an aligned frame again against the same schema changes
      nothing. */
  lemma AlignedIdempotent(cols: seq<Column>, expected: Option<seq<string>>)
    ensures Aligned(Aligned(cols, expected), expected) == Aligned(cols, expected)
  {
    if expected.Some? {
      var names := expected.value;
      var once := Aligned(cols, expected);
      forall k | 0 <= k < |names|
        ensures ValueOrZero(once, names[k]) == ValueOrZero(cols, names[k])
      {
        AlignedLookup(cols, names, names[k]);
      }
    }
  }

  /** Against a schema without repeated names the aligned frame again has
      unique column labels. */
  lemma AlignedDistinct(cols: seq<Column>, names: seq<string>)
    requires Distinct(names)
    ensures Distinct(Names(Aligned(cols, Some(names))))
  {
    AlignedSchema(cols, names);
  }

  /** One 0 column for each label, in the given order. */
  function Zeros(names: seq<string>): seq<Column> {
    seq(|names|, k requires 0 <= k < |names| => Column(names[k], Num(0)))
  }

  lemma NamesAppend(a: seq<Column>, b: seq<Column>)
    ensures Names(a + b) == Names(a) + Names(b)
  {
  }

  /** Looking up in two frames side by side finds the left one first. */
  lemma {:induction false} GetAppend(a: seq<Column>, b: seq<Column>, n: string)
    ensures Get(a + b, n) == if n in Names(a) then Get(a, n) else Get(b, n)
  {
    if a != [] {
      assert (a + b)[1..] == a[1..] + b;
      GetAppend(a[1..], b, n);
    } else {
      assert a + b == b;
    }
  }

  /** The alignment step of app.py:105-109. When the classifier declares its
      feature names, `df` is changed in place by appending one 0 column per
      missing label (in the iteration order of a set, which `added` records)
      and the frame returned is a new one; otherwise `df` itself is returned
      untouched. */
  method Align(df: Frame, expected: Option<seq<string>>) returns (aligned: Frame, ghost added: seq<string>)
    requires df.Valid()
    modifies df
    ensures aligned.columns == Aligned(old(df.columns), expected)
    ensures expected.None? ==> aligned == df && df.columns == old(df.columns)
    ensures expected.Some? ==> fresh(aligned) && df.Valid()
    ensures expected.Some? ==> df.columns == old(df.columns) + Zeros(added)
    ensures expected.Some? ==> Distinct(added) && Elems(added) == Missing(old(df.columns), expected.value)
  {
    aligned, added := df, [];
    if expected.Some? {
      var names := expected.value;
      ghost var original := df.columns;
      var missing := Missing(df.columns, names);
      ghost var todo := missing;
      while missing != {}
        invariant df.Valid()
        invariant missing <= todo
        invariant df.columns == original + Zeros(added)
        invariant Distinct(added) && Elems(added) == todo - missing
        decreases missing
      {
        var col :| col in missing;
        AddedStep(added, todo, missing, col);
        AppendZero(original, added, col);
        df.SetColumn(col, Num(0));
        added := added + [col];
        missing := missing - {col};
      }
      ZeroFilledAligns(original, added, names);
      aligned := df.Select(names);
    }
  }

  /** One turn of the zero-filling loop, on the labels: the label taken from
      `missing` is new, and moving it to `added` keeps the bookkeeping. */
  lemma AddedStep(added: seq<string>, todo: set<string>, missing: set<string>, col: string)
    requires Distinct(added) && missing <= todo && Elems(added) == todo - missing && col in missing
    ensures col !in added
    ensures Distinct(added + [col]) && Elems(added + [col]) == todo - (missing - {col})
  {
    assert col !in Elems(added);
    var more := added + [col];
    forall i, j | 0 <= i < j < |more| ensures more[i] != more[j] {
      if j == |added| {
        assert more[i] == added[i] && added[i] in Elems(added);
      } else {
        assert more[i] == added[i] && more[j] == added[j];
      }
    }
    assert Elems(more) == Elems(added) + {col};
  }

  /** One turn of the zero-filling loop: a label that is neither an original
      nor an added one is appended as a new last column. */
  lemma AppendZero(original: seq<Column>, added: seq<string>, col: string)
    requires col !in Names(original) && col !in added
    ensures col !in Names(original + Zeros(added))
    ensures Assign(original + Zeros(added), col, Num(0)) == original + Zeros(added + [col])
  {
    var filled := original + Zeros(added);
    NamesAppend(original, Zeros(added));
    ZerosNames(added);
    assert col !in Names(filled);
    assert Assign(filled, col, Num(0)) == filled + [Column(col, Num(0))];
    ZerosSnoc(added, col);
    assert filled + [Column(col, Num(0))] == original + (Zeros(added) + [Column(col, Num(0))]);
  }

  lemma ZerosSnoc(added: seq<string>, col: string)
    ensures Zeros(added + [col]) == Zeros(added) + [Column(col, Num(0))]
  {
  }

  lemma ZerosNames(added: seq<string>)
    ensures Names(Zeros(added)) == added
  {
  }

  /** After the loop every expected label has a column, and selecting the
      expected labels gives the aligned row. */
  lemma ZeroFilledAligns(original: seq<Column>, added: seq<string>, names: seq<string>)
    requires Elems(added) == Missing(original, names)
    ensures forall k :: 0 <= k < |names| ==> names[k] in Names(original + Zeros(added))
    ensures Project(original + Zeros(added), names) == Aligned(original, Some(names))
  {
    var filled := original + Zeros(added);
    forall k | 0 <= k < |names|
      ensures names[k] in Names(filled)
      ensures Get(filled, names[k]) == Some(ValueOrZero(original, names[k]))
    {
      NamesAppend(original, Zeros(added));
      GetAppend(original, Zeros(added), names[k]);
      if names[k] !in Names(original) {
        assert names[k] in Missing(original, names);
        assert Names(Zeros(added)) == added;
        GetUniform(Zeros(added), names[k], Num(0));
      }
    }
  }
}
