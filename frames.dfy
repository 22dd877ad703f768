/** The little of a pandas DataFrame the loaders use: named columns of
    equal height, broadcast assignment of a scalar to a column, and
    selection of columns by name. */
module Frames {
  import opened Errors
  import opened Json

  /** The column list after `df[name] = ...`: unchanged when the column
      exists, otherwise extended by it on the right. */
  function WithColumn(columns: seq<string>, name: string): (r: seq<string>)
    ensures name in r
    ensures forall c :: c in r <==> c in columns || c == name
    ensures columns <= r && |r| <= |columns| + 1
  {
    if name in columns then columns else columns + [name]
  }

  class DataFrame {
    /** Column names, in order. */
    var columns: seq<string>
    /** The cells of each column, top to bottom. */
    var data: map<string, seq<Json>>
    var height: nat

    /** Every listed column has cells, one per row. */
    ghost predicate Valid()
      reads this
    {
      forall c :: c in columns ==> c in data && |data[c]| == height
    }

    constructor (columns: seq<string>, data: map<string, seq<Json>>, height: nat)
      requires forall c :: c in columns ==> c in data && |data[c]| == height
      ensures Valid()
      ensures this.columns == columns && this.data == data && this.height == height
    {
      this.columns := columns;
      this.data := data;
      this.height := height;
    }

    /** `df[name] = value` for a scalar value: every row of the column
        holds the value; an existing column is overwritten where it
        stands, a new one is appended at the right. */
    method Assign(name: string, value: Json)
      requires Valid()
      modifies this
      ensures Valid()
      ensures columns == WithColumn(old(columns), name)
      ensures data == old(data)[name := seq(old(height), _ => value)]
      ensures height == old(height)
    {
      if name !in columns {
        columns := columns + [name];
      }
      data := data[name := seq(height, _ => value)];
    }

    /** `df[names]`: a new frame with exactly the named columns, in the
        order given; KeyError when a name is not a column. */
    method Select(names: seq<string>) returns (r: Result<DataFrame>)
      requires Valid()
      ensures r.Ok? <==> forall n :: n in names ==> n in columns
      ensures r.Err? ==> r.error.KeyError?
      ensures r.Ok? ==>
        && fresh(r.value) && r.value.Valid()
        && r.value.columns == names && r.value.height == height
        && forall n :: n in names ==> r.value.data[n] == data[n]
    {
      var i := 0;
      while i < |names|
        invariant 0 <= i <= |names|
        invariant forall k :: 0 <= k < i ==> names[k] in columns
      {
        if names[i] !in columns {
          return Err(KeyError(names[i]));
        }
        i := i + 1;
      }
      var cells := map n | n in names :: data[n];
      var frame := new DataFrame(names, cells, height);
      return Ok(frame);
    }
  }
}
