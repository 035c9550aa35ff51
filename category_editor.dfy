/** The categories page (pages/categories.tsx and its JavaScript twin
    pages/categories.js): the editor for a category's property rows, the
    comma encoding of each row's values, and the per-category product counts.

    While editing, a row keeps its values as one string; saving splits it on
    ',' and editing joins the stored list with ','. The pair is not a
    bijection: `join` after `split` always gives the string back, but `split`
    after `join` turns `[]` into `[""]` and cuts values that contain ','. */
module CategoryEditor {
  import opened Common

  /** A property row being edited (`Property` in types/index.ts). */
  datatype Row = Row(name: string, values: string)

  /** `s.split(',')` of JavaScript: never empty; `""` gives `[""]`. */
  function Split(s: string): (parts: seq<string>)
    ensures |parts| >= 1
    ensures forall k :: 0 <= k < |parts| ==> ',' !in parts[k]
    decreases |s|
  {
    if s == [] then [""]
    else
      var rest := Split(s[1..]);
      if s[0] == ',' then [""] + rest
      else [[s[0]] + rest[0]] + rest[1..]
  }

  /** `parts.join(',')` of JavaScript: `[]` gives `""`. */
  function Join(parts: seq<string>): string
    decreases |parts|
  {
    if parts == [] then ""
    else if |parts| == 1 then parts[0]
    else parts[0] + "," + Join(parts[1..])
  }

  ghost predicate CommaFree(parts: seq<string>)
  {
    forall k :: 0 <= k < |parts| ==> ',' !in parts[k]
  }

  lemma JoinExtendsHead(c: char, p: string, ps: seq<string>)
    ensures Join([[c] + p] + ps) == [c] + Join([p] + ps)
  {
    if ps != [] {
      assert ([[c] + p] + ps)[1..] == ps;
      assert ([p] + ps)[1..] == ps;
    }
  }

  /** Joining what was split gives back the string, for every string. */
  lemma {:induction false} JoinSplit(s: string)
    ensures Join(Split(s)) == s
    decreases |s|
  {
    if s != [] {
      var rest := Split(s[1..]);
      JoinSplit(s[1..]);
      if s[0] == ',' {
        assert ([""] + rest)[1..] == rest;
        assert s == [','] + s[1..];
      } else {
        assert rest == [rest[0]] + rest[1..];
        JoinExtendsHead(s[0], rest[0], rest[1..]);
        assert s == [s[0]] + s[1..];
      }
    }
  }

  lemma {:induction false} SplitSingle(x: string)
    requires ',' !in x
    ensures Split(x) == [x]
    decreases |x|
  {
    if x != [] {
      SplitSingle(x[1..]);
      assert x == [x[0]] + x[1..];
    }
  }

  lemma {:induction false} SplitAfterComma(x: string, t: string)
    requires ',' !in x
    ensures Split(x + "," + t) == [x] + Split(t)
    decreases |x|
  {
    if x == [] {
      assert x + "," + t == [','] + t;
      assert (x + "," + t)[1..] == t;
    } else {
      assert (x + "," + t)[1..] == x[1..] + "," + t;
      SplitAfterComma(x[1..], t);
      assert x == [x[0]] + x[1..];
    }
  }

  lemma {:induction false} SplitJoin(parts: seq<string>)
    requires parts != [] && CommaFree(parts)
    ensures Split(Join(parts)) == parts
    decreases |parts|
  {
    if |parts| == 1 {
      SplitSingle(parts[0]);
    } else {
      SplitJoin(parts[1..]);
      SplitAfterComma(parts[0], Join(parts[1..]));
      assert parts == [parts[0]] + parts[1..];
    }
  }

  /** Splitting what was joined restores the list exactly when the list is
      non-empty and no value contains ','. */
  lemma SplitJoinIff(parts: seq<string>)
    ensures Split(Join(parts)) == parts <==> parts != [] && CommaFree(parts)
  {
    if parts != [] && CommaFree(parts) {
      SplitJoin(parts);
    }
  }

  /** `saveCategory`'s encoding: each row becomes `{ name, values: values.split(',') }`. */
  function SaveRows(rows: seq<Row>): (props: seq<Property>)
    ensures |props| == |rows|
    ensures forall i :: 0 <= i < |rows| ==> props[i].name == rows[i].name
  {
    seq(|rows|, i requires 0 <= i < |rows| => Property(rows[i].name, Split(rows[i].values)))
  }

  /** `editCategory`'s encoding: each stored property becomes `{ name, values: values.join(',') }`. */
  function EditRows(props: seq<Property>): (rows: seq<Row>)
    ensures |rows| == |props|
    ensures forall i :: 0 <= i < |props| ==> rows[i].name == props[i].name
  {
    seq(|props|, i requires 0 <= i < |props| => Row(props[i].name, Join(props[i].values)))
  }

  /** Saving rows and opening the category again shows the same rows. */
  lemma EditAfterSave(rows: seq<Row>)
    ensures EditRows(SaveRows(rows)) == rows
  {
    forall i | 0 <= i < |rows| ensures EditRows(SaveRows(rows))[i] == rows[i] {
      JoinSplit(rows[i].values);
    }
  }

  /** Opening a category and saving it unchanged stores the same properties
      exactly when every value list is non-empty and free of ','. */
  lemma SaveAfterEditIff(props: seq<Property>)
    ensures SaveRows(EditRows(props)) == props <==>
            forall i :: 0 <= i < |props| ==> props[i].values != [] && CommaFree(props[i].values)
  {
    forall i | 0 <= i < |props|
      ensures SaveRows(EditRows(props))[i] == props[i] <==>
              props[i].values != [] && CommaFree(props[i].values)
    {
      SplitJoinIff(props[i].values);
    }
    if SaveRows(EditRows(props)) != props {
      var i :| 0 <= i < |props| && SaveRows(EditRows(props))[i] != props[i];
    }
  }

  /** `addProperty`: one empty row after the existing ones. */
  function AddRow(rows: seq<Row>): (r: seq<Row>)
    ensures |r| == |rows| + 1 && r[..|rows|] == rows && r[|rows|] == Row("", "")
  {
    rows + [Row("", "")]
  }

  /** An added row left blank is saved as a property named "" with the one
      value "". */
  lemma SaveAfterAdd(rows: seq<Row>)
    ensures SaveRows(AddRow(rows)) == SaveRows(rows) + [Property("", [""])]
  {
    var r := AddRow(rows);
    assert forall i :: 0 <= i < |rows| ==> r[i] == rows[i];
  }

  /** `removeProperty`: `filter((property, index) => index !== indexToRemove)`. */
  function RemoveRow(rows: seq<Row>, indexToRemove: int): (r: seq<Row>)
    ensures 0 <= indexToRemove < |rows| ==> r == rows[..indexToRemove] + rows[indexToRemove + 1..]
    ensures !(0 <= indexToRemove < |rows|) ==> r == rows
    decreases |rows|
  {
    if rows == [] then []
    else (if indexToRemove == 0 then [] else [rows[0]]) + RemoveRow(rows[1..], indexToRemove - 1)
  }

  /** Removing the row just added restores the list. */
  lemma RemoveAfterAdd(rows: seq<Row>)
    ensures RemoveRow(AddRow(rows), |rows|) == rows
  {
    assert AddRow(rows)[..|rows|] == rows;
  }

  /** What the form sends on save. */
  datatype CategoryData = CategoryData(name: string, parentCategory: Option<string>, properties: seq<Property>)

  /** A category being edited is updated with PUT and its `_id`; otherwise
      POST creates one. */
  datatype CategoryRequest = Post(data: CategoryData) | Put(id: Option<string>, data: CategoryData)

  /** The editor's state: name, parent id, the category being edited (if any)
      and the property rows. The row handlers change one row in place. */
  class CategoryForm {
    var name: string
    var parentCategory: Option<string>
    var editedCategory: Option<Category>
    var properties: seq<Row>

    constructor ()
      ensures name == "" && parentCategory == Some("") && editedCategory == None && properties == []
    {
      name := "";
      parentCategory := Some("");
      editedCategory := None;
      properties := [];
    }

    /** `saveCategory`. `delivered` says whether the request succeeded; when it
        throws, the awaited call never returns and nothing is reset. */
    method SaveCategory(delivered: bool) returns (request: CategoryRequest)
      modifies this
      ensures request.data == CategoryData(old(name), old(parentCategory), SaveRows(old(properties)))
      ensures request.Put? <==> old(editedCategory).Some?
      ensures request.Put? ==> request.id == old(editedCategory).value.id
      ensures delivered ==>
        name == "" && parentCategory == Some("") && properties == [] && editedCategory == None
      ensures !delivered ==>
        name == old(name) && parentCategory == old(parentCategory) &&
        properties == old(properties) && editedCategory == old(editedCategory)
    {
      var data := CategoryData(name, parentCategory, SaveRows(properties));
      if editedCategory.Some? {
        request := Put(editedCategory.value.id, data);
        if !delivered {
          return;
        }
        editedCategory := None;
      } else {
        request := Post(data);
        if !delivered {
          return;
        }
      }
      name := "";
      parentCategory := Some("");
      properties := [];
    }

    /** `editCategory`. A category without `properties` makes the `map` throw
        after name, parent and edited category were already set. */
    method EditCategory(category: Category) returns (ok: bool)
      modifies this
      ensures editedCategory == Some(category) && name == category.name
      ensures parentCategory == category.parentId
      ensures ok <==> category.properties.Some?
      ensures ok ==> properties == EditRows(category.properties.value)
      ensures !ok ==> properties == old(properties)
    {
      editedCategory := Some(category);
      name := category.name;
      parentCategory := category.parentId;
      if category.properties.None? {
        return false;
      }
      properties := EditRows(category.properties.value);
      ok := true;
    }

    /** The Cancel button: back to an empty form. */
    method Cancel()
      modifies this
      ensures name == "" && parentCategory == Some("") && editedCategory == None && properties == []
    {
      editedCategory := None;
      name := "";
      parentCategory := Some("");
      properties := [];
    }

    method AddProperty()
      modifies this
      ensures properties == AddRow(old(properties))
      ensures name == old(name) && parentCategory == old(parentCategory)
      ensures editedCategory == old(editedCategory)
    {
      properties := AddRow(properties);
    }

    /** `handlePropertyNameChange`: `properties[index].name = newName`; an
        index with no row makes the assignment throw and nothing changes. */
    method HandlePropertyNameChange(index: int, newName: string) returns (ok: bool)
      modifies this
      ensures ok <==> 0 <= index < |old(properties)|
      ensures ok ==> properties == old(properties)[index := Row(newName, old(properties)[index].values)]
      ensures !ok ==> properties == old(properties)
      ensures name == old(name) && parentCategory == old(parentCategory)
      ensures editedCategory == old(editedCategory)
    {
      if !(0 <= index < |properties|) {
        return false;
      }
      properties := properties[index := properties[index].(name := newName)];
      ok := true;
    }

    /** `handlePropertyValuesChange`: `properties[index].values = newValues`. */
    method HandlePropertyValuesChange(index: int, newValues: string) returns (ok: bool)
      modifies this
      ensures ok <==> 0 <= index < |old(properties)|
      ensures ok ==> properties == old(properties)[index := Row(old(properties)[index].name, newValues)]
      ensures !ok ==> properties == old(properties)
      ensures name == old(name) && parentCategory == old(parentCategory)
      ensures editedCategory == old(editedCategory)
    {
      if !(0 <= index < |properties|) {
        return false;
      }
      properties := properties[index := properties[index].(values := newValues)];
      ok := true;
    }

    method RemoveProperty(indexToRemove: int)
      modifies this
      ensures properties == RemoveRow(old(properties), indexToRemove)
      ensures name == old(name) && parentCategory == old(parentCategory)
      ensures editedCategory == old(editedCategory)
    {
      properties := RemoveRow(properties, indexToRemove);
    }
  }

  // ---------------------------------------------------------------------------
  // Product counts.

  /** The ids that received a count: those paired with a response. */
  function Counted(categoryIds: seq<string>, responses: seq<nat>): set<string>
    requires |responses| <= |categoryIds|
  {
    set k | 0 <= k < |responses| :: categoryIds[k]
  }

  /** No later position among the first `n` repeats the id at `k`, so the
      write at `k` is the one that stays. */
  ghost predicate LastWrite(categoryIds: seq<string>, n: int, k: int)
    requires 0 <= k < n <= |categoryIds|
  {
    forall j :: k < j < n ==> categoryIds[j] != categoryIds[k]
  }

  /** `productCount[category._id] || 0`: the number shown in the table. */
  function DisplayedCount(counts: map<string, nat>, id: string): nat
  {
    if id in counts then counts[id] else 0
  }

  /** The `forEach` of `fetchCategories`: the i-th response's length is written
      under the i-th category's `_id`. `responses` is what `Promise.all` gave:
      one list length per category, or nothing when it rejected. The seed
      object's `_id: ''` is kept as 0, which `|| 0` shows the same way. */
  method ProductCounts(categoryIds: seq<string>, responses: seq<nat>) returns (counts: map<string, nat>)
    requires responses == [] || |responses| == |categoryIds|
    ensures counts.Keys == {"_id", "productCount"} + Counted(categoryIds, responses)
    ensures forall k :: 0 <= k < |responses| && LastWrite(categoryIds, |responses|, k) ==>
              DisplayedCount(counts, categoryIds[k]) == responses[k]
    ensures forall id :: id !in Counted(categoryIds, responses) ==> DisplayedCount(counts, id) == 0
  {
    counts := map["_id" := 0, "productCount" := 0];
    var index := 0;
    while index < |responses|
      invariant 0 <= index <= |responses|
      invariant counts.Keys == {"_id", "productCount"} + Counted(categoryIds, responses[..index])
      invariant forall k :: 0 <= k < index && LastWrite(categoryIds, index, k) ==>
                  counts[categoryIds[k]] == responses[k]
      invariant forall id :: id in counts && id !in Counted(categoryIds, responses[..index]) ==>
                  counts[id] == 0
    {
      assert Counted(categoryIds, responses[..index + 1]) ==
             Counted(categoryIds, responses[..index]) + {categoryIds[index]};
      counts := counts[categoryIds[index] := responses[index]];
      index := index + 1;
    }
    assert responses[..index] == responses;
  }
}
