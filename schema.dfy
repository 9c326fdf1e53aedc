/**
 * Table schemas (`schema/table.go`): columns with the set of data types seen
 * in them, merging column sets, a table's header, and the difference
 * between two table schemas.
 *
 * `typing.IsConvertible` and `typing.GetCommonAncestorType` are not part of
 * this model: they are passed in as the functions `convertible` and
 * `ancestor`, about which nothing is assumed unless a lemma says so.
 */
module Schema {
  import opened Wrappers
  import opened Typing
  import opened Sorting

  /** `typing.GetCommonAncestorType`. */
  type Ancestor = (DataType, DataType) -> DataType

  /** `typing.IsConvertible(from, to)`. */
  type Convertibility = (DataType, DataType) -> bool

  /**
   * A column: its cached type (`nil` until stored) and the set of types that
   * occurred in it (the keys of `typeOccurrence`).
   */
  datatype Column = Column(dataType: Option<DataType>, typeOccurrence: set<DataType>)

  /** `NewColumn(t)`: a column that has seen only `t`, with `t` cached. */
  function NewColumn(t: DataType): (c: Column)
    ensures c.dataType == Some(t) && c.typeOccurrence == {t}
  {
    Column(Some(t), {t})
  }

  // ---------------------------------------------------------------------
  // Column.GetType
  // ---------------------------------------------------------------------

  /** The loop `common := types[0]; common = GetCommonAncestorType(common, types[i])`. */
  function FoldCommon(ancestor: Ancestor, types: seq<DataType>): DataType
    requires types != []
  {
    if |types| == 1 then types[0]
    else ancestor(FoldCommon(ancestor, types[..|types| - 1]), types[|types| - 1])
  }

  /** An ancestor function that always picks one of its arguments folds to one of the types. */
  lemma {:induction false} FoldCommonSelective(ancestor: Ancestor, types: seq<DataType>)
    requires types != []
    requires forall x, y :: ancestor(x, y) == x || ancestor(x, y) == y
    ensures FoldCommon(ancestor, types) in types
  {
    if |types| > 1 {
      var init := types[..|types| - 1];
      FoldCommonSelective(ancestor, init);
      assert FoldCommon(ancestor, init) in types by {
        assert forall x :: x in init ==> x in types;
      }
    }
  }

  /** `types` lists every element of `s` exactly once, in some order. */
  predicate IsEnumeration(types: seq<DataType>, s: set<DataType>) {
    multiset(types) == multiset(s)
  }

  /**
   * `t` is a type `GetType` may return for `c`: the cached type when there is
   * one, UNKNOWN when no type occurred, and otherwise the fold of the
   * ancestor function over the occurrences in one of the orders a Go map
   * iteration may produce.
   */
  ghost predicate PossibleType(c: Column, ancestor: Ancestor, t: DataType) {
    if c.dataType.Some? then t == c.dataType.value
    else if c.typeOccurrence == {} then t == UNKNOWN
    else exists types :: IsEnumeration(types, c.typeOccurrence) && types != [] && t == FoldCommon(ancestor, types)
  }

  /** `Column.GetType`. The map is iterated in an unspecified order. */
  method GetType(c: Column, ancestor: Ancestor) returns (t: DataType)
    ensures PossibleType(c, ancestor, t)
    ensures c.dataType.Some? ==> t == c.dataType.value
    ensures c.dataType.None? && c.typeOccurrence == {} ==> t == UNKNOWN
  {
    if c.dataType.Some? {
      return c.dataType.value;
    }
    var types: seq<DataType> := [];
    var rest := c.typeOccurrence;
    while rest != {}
      invariant rest <= c.typeOccurrence
      invariant multiset(types) + multiset(rest) == multiset(c.typeOccurrence)
      decreases |rest|
    {
      var x :| x in rest;
      assert multiset(rest) == multiset(rest - {x}) + multiset{x};
      types := types + [x];
      rest := rest - {x};
    }
    assert multiset(rest) == multiset{};
    assert IsEnumeration(types, c.typeOccurrence);
    if c.typeOccurrence != {} {
      var y :| y in c.typeOccurrence;
      assert y in multiset(types);
    }
    if |types| == 0 {
      return UNKNOWN;
    }
    var common := types[0];
    var i := 1;
    while i < |types|
      invariant 1 <= i <= |types|
      invariant common == FoldCommon(ancestor, types[..i])
    {
      assert types[..i + 1][..i] == types[..i];
      common := ancestor(common, types[i]);
      i := i + 1;
    }
    assert types[..i] == types;
    t := common;
  }

  ghost predicate Commutative(f: Ancestor) {
    forall x, y :: f(x, y) == f(y, x)
  }

  ghost predicate Associative(f: Ancestor) {
    forall x, y, z :: f(f(x, y), z) == f(x, f(y, z))
  }

  /** `s` without its element at `i`. */
  function RemoveAt(s: seq<DataType>, i: nat): (r: seq<DataType>)
    requires i < |s|
    ensures |r| == |s| - 1
  {
    s[..i] + s[i + 1..]
  }

  lemma RemoveAtMultiset(s: seq<DataType>, i: nat)
    requires i < |s|
    ensures multiset(RemoveAt(s, i)) == multiset(s) - multiset{s[i]}
  {
    assert s == s[..i] + [s[i]] + s[i + 1..];
  }

  lemma RemoveAtBeforeLast(s: seq<DataType>, i: nat)
    requires |s| >= 3 && i < |s| - 1
    ensures RemoveAt(s, i) == RemoveAt(s[..|s| - 1], i) + [s[|s| - 1]]
  {
  }

  lemma Rotate(f: Ancestor, a: DataType, x: DataType, z: DataType)
    requires Commutative(f) && Associative(f)
    ensures f(f(a, x), z) == f(f(a, z), x)
  {
    calc {
      f(f(a, x), z);
      f(a, f(x, z));
      f(a, f(z, x));
      f(f(a, z), x);
    }
  }

  /** Under a commutative, associative ancestor any element can be folded in last. */
  lemma {:induction false} FoldCommonRemove(ancestor: Ancestor, s: seq<DataType>, i: nat)
    requires Commutative(ancestor) && Associative(ancestor)
    requires |s| >= 2 && i < |s|
    ensures FoldCommon(ancestor, s) == ancestor(FoldCommon(ancestor, RemoveAt(s, i)), s[i])
    decreases |s|
  {
    var p, z := s[..|s| - 1], s[|s| - 1];
    assert FoldCommon(ancestor, s) == ancestor(FoldCommon(ancestor, p), z);
    if i == |s| - 1 {
      assert RemoveAt(s, i) == p;
    } else if |p| == 1 {
      assert RemoveAt(s, i) == [z];
    } else {
      var rest := RemoveAt(p, i);
      var r := RemoveAt(s, i);
      RemoveAtBeforeLast(s, i);
      assert r[..|r| - 1] == rest;
      assert FoldCommon(ancestor, r) == ancestor(FoldCommon(ancestor, rest), z);
      FoldCommonRemove(ancestor, p, i);
      Rotate(ancestor, FoldCommon(ancestor, rest), s[i], z);
    }
  }

  /** Under a commutative, associative ancestor the iteration order does not matter. */
  lemma {:induction false} FoldCommonOrderIrrelevant(ancestor: Ancestor, a: seq<DataType>, b: seq<DataType>)
    requires Commutative(ancestor) && Associative(ancestor)
    requires a != [] && multiset(a) == multiset(b)
    ensures b != [] && FoldCommon(ancestor, a) == FoldCommon(ancestor, b)
    decreases |a|
  {
    assert |b| == |multiset(b)| == |a|;
    var y := b[|b| - 1];
    assert y in multiset(a);
    var i :| 0 <= i < |a| && a[i] == y;
    if |a| == 1 {
      assert a == [y] && b == [y];
    } else {
      var b' := b[..|b| - 1];
      assert b == b' + [y];
      assert multiset(b') == multiset(b) - multiset{y};
      FoldCommonRemove(ancestor, a, i);
      RemoveAtMultiset(a, i);
      FoldCommonOrderIrrelevant(ancestor, RemoveAt(a, i), b');
    }
  }

  /** Every finite set of types has an enumeration. */
  lemma {:induction false} EnumerationOf(s: set<DataType>) returns (types: seq<DataType>)
    ensures IsEnumeration(types, s)
    decreases |s|
  {
    if s == {} {
      types := [];
    } else {
      var x :| x in s;
      var rest := EnumerationOf(s - {x});
      types := rest + [x];
      assert multiset(s) == multiset(s - {x}) + multiset{x};
    }
  }

  /** `GetType` can always return something. */
  lemma {:induction false} PossibleTypeExists(c: Column, ancestor: Ancestor) returns (t: DataType)
    ensures PossibleType(c, ancestor, t)
  {
    if c.dataType.Some? {
      t := c.dataType.value;
    } else if c.typeOccurrence == {} {
      t := UNKNOWN;
    } else {
      var types := EnumerationOf(c.typeOccurrence);
      var y :| y in c.typeOccurrence;
      assert y in multiset(types);
      t := FoldCommon(ancestor, types);
    }
  }

  /** With a commutative, associative ancestor, `GetType` is a function of the column. */
  lemma {:induction false} PossibleTypeUnique(c: Column, ancestor: Ancestor, t1: DataType, t2: DataType)
    requires Commutative(ancestor) && Associative(ancestor)
    requires PossibleType(c, ancestor, t1) && PossibleType(c, ancestor, t2)
    ensures t1 == t2
  {
    if c.dataType.None? && c.typeOccurrence != {} {
      var a :| IsEnumeration(a, c.typeOccurrence) && a != [] && t1 == FoldCommon(ancestor, a);
      var b :| IsEnumeration(b, c.typeOccurrence) && b != [] && t2 == FoldCommon(ancestor, b);
      FoldCommonOrderIrrelevant(ancestor, a, b);
    }
  }

  /** A column that has seen one type reports that type, whatever the ancestor function. */
  lemma {:induction false} SingleTypeColumn(c: Column, ancestor: Ancestor, x: DataType, t: DataType)
    requires c.typeOccurrence == {x}
    requires c.dataType.None? || c.dataType == Some(x)
    ensures PossibleType(c, ancestor, t) <==> t == x
  {
    if c.dataType.None? {
      assert IsEnumeration([x], {x});
      if PossibleType(c, ancestor, t) {
        var types :| IsEnumeration(types, {x}) && types != [] && t == FoldCommon(ancestor, types);
        assert |types| == |multiset(types)| == 1;
        assert types[0] in multiset(types);
      }
    }
  }

  /** A new column reports the type it was created with. */
  lemma NewColumnType(t: DataType, ancestor: Ancestor, r: DataType)
    ensures PossibleType(NewColumn(t), ancestor, r) <==> r == t
  {
  }

  // ---------------------------------------------------------------------
  // Columns.Merge and Columns.Header
  // ---------------------------------------------------------------------

  /** A column after merging the types of `other` into `current`. */
  function MergeColumn(current: Column, other: Column): (m: Column)
    ensures m.typeOccurrence == current.typeOccurrence + other.typeOccurrence
    ensures other.typeOccurrence <= current.typeOccurrence ==> m == current
    ensures !(other.typeOccurrence <= current.typeOccurrence) ==> m.dataType.None?
  {
    if other.typeOccurrence <= current.typeOccurrence then current
    else Column(None, current.typeOccurrence + other.typeOccurrence)
  }

  /** The column set `c` becomes after `c.Merge(other)`. */
  function Merged(c: map<string, Column>, other: map<string, Column>): (m: map<string, Column>)
    ensures m.Keys == c.Keys + other.Keys
    ensures forall n :: n in c && n !in other ==> m[n] == c[n]
    ensures forall n :: n in other && n !in c ==> m[n] == other[n]
    ensures forall n :: n in c && n in other ==> m[n] == MergeColumn(c[n], other[n])
  {
    map n | n in c.Keys + other.Keys ::
      if n !in other then c[n]
      else if n !in c then other[n]
      else MergeColumn(c[n], other[n])
  }

  /** No column disappears and no type is forgotten. */
  lemma MergeOnlyGrows(c: map<string, Column>, other: map<string, Column>)
    ensures c.Keys <= Merged(c, other).Keys
    ensures forall n :: n in c ==> c[n].typeOccurrence <= Merged(c, other)[n].typeOccurrence
    ensures forall n :: n in other ==> other[n].typeOccurrence <= Merged(c, other)[n].typeOccurrence
  {
  }

  /** The cached type of a shared column is wiped exactly when `other` brings a new type. */
  lemma MergeWipesCacheIff(c: map<string, Column>, other: map<string, Column>, n: string)
    requires n in c && n in other && c[n].dataType.Some?
    ensures Merged(c, other)[n].dataType.None? <==> exists t :: t in other[n].typeOccurrence && t !in c[n].typeOccurrence
  {
  }

  /** Merging columns whose types are all known already changes nothing. */
  lemma {:induction false} MergeKnownTypesIsIdentity(c: map<string, Column>, other: map<string, Column>)
    requires other.Keys <= c.Keys
    requires forall n :: n in other ==> other[n].typeOccurrence <= c[n].typeOccurrence
    ensures Merged(c, other) == c
  {
    var m := Merged(c, other);
    assert m.Keys == c.Keys;
    forall n | n in c
      ensures m[n] == c[n]
    {
    }
  }

  /** Merging the same columns a second time changes nothing. */
  lemma {:induction false} MergeIdempotent(c: map<string, Column>, other: map<string, Column>)
    ensures Merged(Merged(c, other), other) == Merged(c, other)
  {
    MergeKnownTypesIsIdentity(Merged(c, other), other);
  }

  /** One more type of `other` merged into a shared column. */
  lemma MergeColumnStep(current: Column, other: Column, todo: set<DataType>, t: DataType)
    requires t in todo && todo <= other.typeOccurrence
    ensures var before := MergeColumn(current, other.(typeOccurrence := other.typeOccurrence - todo));
      MergeColumn(current, other.(typeOccurrence := other.typeOccurrence - (todo - {t}))) ==
        if t in before.typeOccurrence then before
        else before.(typeOccurrence := before.typeOccurrence + {t}, dataType := None)
  {
  }

  /** `m` is `c` with every column of `other` merged in except those named in `pending`. */
  ghost predicate MergedExcept(m: map<string, Column>, c: map<string, Column>, other: map<string, Column>, pending: set<string>) {
    && m.Keys == c.Keys + (other.Keys - pending)
    && (forall n :: n in c && (n !in other || n in pending) ==> m[n] == c[n])
    && (forall n :: n in other && n !in pending && n !in c ==> m[n] == other[n])
    && (forall n :: n in other && n !in pending && n in c ==> m[n] == MergeColumn(c[n], other[n]))
  }

  lemma MergedExceptStep(m: map<string, Column>, c: map<string, Column>, other: map<string, Column>,
                         pending: set<string>, name: string)
    requires MergedExcept(m, c, other, pending) && name in pending && pending <= other.Keys
    ensures MergedExcept(m[name := if name in c then MergeColumn(c[name], other[name]) else other[name]],
                         c, other, pending - {name})
  {
  }

  lemma MergedExceptAll(m: map<string, Column>, c: map<string, Column>, other: map<string, Column>)
    requires MergedExcept(m, c, other, {})
    ensures m == Merged(c, other)
  {
  }

  /** `Columns`: a column set that `Merge` updates in place. */
  class Columns {
    var cols: map<string, Column>

    constructor (cols: map<string, Column>)
      ensures this.cols == cols
    {
      this.cols := cols;
    }

    /** `Merge`: adds every column of `other`, and every type of `other`'s shared columns. */
    method Merge(other: map<string, Column>)
      modifies this
      ensures cols == Merged(old(cols), other)
    {
      var pending := other.Keys;
      while pending != {}
        invariant pending <= other.Keys
        invariant MergedExcept(cols, old(cols), other, pending)
        decreases |pending|
      {
        var name :| name in pending;
        var otherColumn := other[name];
        ghost var before := cols;
        if name in cols {
          assert name in old(cols) && before[name] == old(cols)[name];
          MergeTypes(name, otherColumn);
        } else {
          cols := cols[name := otherColumn];
        }
        MergedExceptStep(before, old(cols), other, pending, name);
        pending := pending - {name};
      }
      MergedExceptAll(cols, old(cols), other);
    }

    /** The inner loop of `Merge`: adds the types of `otherColumn` to the column `name`. */
    method MergeTypes(name: string, otherColumn: Column)
      requires name in cols
      modifies this
      ensures cols == old(cols)[name := MergeColumn(old(cols)[name], otherColumn)]
    {
      var current := cols[name];
      var todo := otherColumn.typeOccurrence;
      while todo != {}
        invariant todo <= otherColumn.typeOccurrence
        invariant current == MergeColumn(old(cols)[name], otherColumn.(typeOccurrence := otherColumn.typeOccurrence - todo))
        invariant cols == old(cols)[name := current]
        decreases |todo|
      {
        var t :| t in todo;
        MergeColumnStep(old(cols)[name], otherColumn, todo, t);
        if t !in current.typeOccurrence {
          current := current.(typeOccurrence := current.typeOccurrence + {t}, dataType := None);
          cols := cols[name := current];
        }
        todo := todo - {t};
      }
      assert otherColumn.(typeOccurrence := otherColumn.typeOccurrence - todo) == otherColumn;
    }

    /** `Header`: every column name, each once, in an unspecified order. */
    method Header() returns (header: seq<string>)
      ensures |header| == |cols|
      ensures forall n :: n in header <==> n in cols
      ensures forall i, j :: 0 <= i < j < |header| ==> header[i] != header[j]
    {
      header := [];
      var rest := cols.Keys;
      while rest != {}
        invariant rest <= cols.Keys
        invariant forall n :: n in header <==> n in cols && n !in rest
        invariant forall i, j :: 0 <= i < j < |header| ==> header[i] != header[j]
        invariant |header| + |rest| == |cols|
        decreases |rest|
      {
        var name :| name in rest;
        header := header + [name];
        rest := rest - {name};
      }
    }
  }

  // ---------------------------------------------------------------------
  // Table.Exists, primaryKeyFieldsEqual and Table.Diff
  // ---------------------------------------------------------------------

  /** A table schema. `pkFields` is `None` for a nil slice. */
  datatype Table = Table(name: string, columns: map<string, Column>, pkFields: Option<seq<string>>, version: int)

  /** The elements of a key slice; a nil slice has none. */
  function KeyList(pk: Option<seq<string>>): seq<string> {
    if pk.Some? then pk.value else []
  }

  /** `Exists` on a possibly nil table pointer. */
  function Exists(t: Option<Table>): (b: bool)
    ensures b <==> t.Some? && (t.value.columns != map[] || t.value.pkFields.Some?)
  {
    t.Some? && (|t.value.columns| > 0 || t.value.pkFields.Some?)
  }

  /** Two sorted sequences that differ somewhere are not permutations of each other. */
  lemma SortedMismatch(s: seq<string>, t: seq<string>, i: nat)
    requires Sorted(s) && Sorted(t) && i < |s| && i < |t| && s[i] != t[i]
    ensures multiset(s) != multiset(t)
  {
    if multiset(s) == multiset(t) {
      SortedPermutationUnique(s, t);
    }
  }

  /**
   * `primaryKeyFieldsEqual`: multiset equality of the two key lists. When the
   * lengths agree both arrays are left sorted, as the source sorts them in place.
   */
  method PrimaryKeyFieldsEqual(oldFields: array<string>, newFields: array<string>) returns (equal: bool)
    modifies oldFields, newFields
    ensures equal <==> multiset(old(oldFields[..])) == multiset(old(newFields[..]))
    ensures oldFields.Length != newFields.Length ==> unchanged(oldFields) && unchanged(newFields)
    ensures oldFields.Length == newFields.Length ==>
      && Sorted(oldFields[..]) && multiset(oldFields[..]) == multiset(old(oldFields[..]))
      && Sorted(newFields[..]) && multiset(newFields[..]) == multiset(old(newFields[..]))
  {
    if oldFields.Length != newFields.Length {
      assert |multiset(oldFields[..])| == oldFields.Length;
      assert |multiset(newFields[..])| == newFields.Length;
      return false;
    }
    SortStrings(oldFields);
    SortStrings(newFields);
    var i := 0;
    while i < oldFields.Length
      invariant 0 <= i <= oldFields.Length
      invariant oldFields[..i] == newFields[..i]
    {
      if oldFields[i] != newFields[i] {
        SortedMismatch(oldFields[..], newFields[..], i);
        return false;
      }
      assert oldFields[..i + 1] == oldFields[..i] + [oldFields[i]];
      assert newFields[..i + 1] == newFields[..i] + [newFields[i]];
      i := i + 1;
    }
    assert oldFields[..] == oldFields[..i] && newFields[..] == newFields[..i];
    return true;
  }

  /** The new key list `Diff` reports for a current key list `cur` and a wanted one `next`. */
  predicate KeyDiff(cur: Option<seq<string>>, next: Option<seq<string>>, result: Option<seq<string>>)
    ensures KeyDiff(cur, next, result) && multiset(KeyList(cur)) == multiset(KeyList(next)) ==> result.None?
    ensures KeyDiff(cur, next, result) && result.Some? ==>
      next.Some? && multiset(result.value) == multiset(next.value)
  {
    if multiset(KeyList(cur)) == multiset(KeyList(next)) then result.None?
    else if |KeyList(cur)| != |KeyList(next)| then result == next
    else result.Some? && next.Some? && Sorted(result.value) && multiset(result.value) == multiset(next.value)
  }

  /** The key diff is determined by the two key lists: sorting leaves no choice. */
  lemma {:induction false} KeyDiffUnique(cur: Option<seq<string>>, next: Option<seq<string>>,
                                         r1: Option<seq<string>>, r2: Option<seq<string>>)
    requires KeyDiff(cur, next, r1) && KeyDiff(cur, next, r2)
    ensures r1 == r2
  {
    if multiset(KeyList(cur)) != multiset(KeyList(next)) && |KeyList(cur)| == |KeyList(next)| {
      SortedPermutationUnique(r1.value, r2.value);
    }
  }

  /** The columns of `another` whose names `current` lacks. */
  function NewColumns(current: map<string, Column>, another: map<string, Column>): (m: map<string, Column>)
    ensures m.Keys == another.Keys - current.Keys
    ensures forall n :: n in m ==> m[n] == another[n]
  {
    map n | n in another && n !in current :: another[n]
  }

  /** The error `Diff` returns when a column would change to a type it cannot be converted to. */
  datatype DiffError = UnsupportedTypeChange(column: string, from: DataType, to: DataType)

  /** The error text: it names the column first and the type it would change to last. */
  function DiffMessage(e: DiffError): (m: string)
    ensures "Unsupported column [" + e.column + "]" <= m
    ensures |m| >= |Name(e.to)| && m[|m| - |Name(e.to)|..] == Name(e.to)
  {
    "Unsupported column [" + e.column + "] type changing from: " + Name(e.from) + " to: " + Name(e.to)
  }

  /** Some type `GetType` may give `a` converts to some type it may give `c`. */
  ghost predicate Convertible(a: Column, c: Column, convertible: Convertibility, ancestor: Ancestor) {
    exists ta, tc :: PossibleType(a, ancestor, ta) && PossibleType(c, ancestor, tc) && convertible(ta, tc)
  }

  /** Some type `GetType` may give `a` does not convert to some type it may give `c`. */
  ghost predicate Unconvertible(a: Column, c: Column, convertible: Convertibility, ancestor: Ancestor) {
    exists ta, tc :: PossibleType(a, ancestor, ta) && PossibleType(c, ancestor, tc) && !convertible(ta, tc)
  }

  /**
   * `e` is an error `Diff` may report for the new column `a` and the current
   * column `c`: the conversion test failed for some types `GetType` may give
   * them, and the message names types `GetType` may give them (which, `GetType`
   * being called again, need not be the tested ones).
   */
  ghost predicate JustifiedFailure(e: DiffError, a: Column, c: Column, convertible: Convertibility, ancestor: Ancestor) {
    && Unconvertible(a, c, convertible, ancestor)
    && PossibleType(a, ancestor, e.from)
    && PossibleType(c, ancestor, e.to)
  }

  /** When `GetType` is a function of the column, exactly one of the two holds. */
  lemma ConvertibleDetermined(a: Column, c: Column, convertible: Convertibility, ancestor: Ancestor)
    requires Commutative(ancestor) && Associative(ancestor)
    ensures Convertible(a, c, convertible, ancestor) <==> !Unconvertible(a, c, convertible, ancestor)
  {
    var ta := PossibleTypeExists(a, ancestor);
    var tc := PossibleTypeExists(c, ancestor);
    forall ta', tc' | PossibleType(a, ancestor, ta') && PossibleType(c, ancestor, tc')
      ensures ta' == ta && tc' == tc
    {
      PossibleTypeUnique(a, ancestor, ta, ta');
      PossibleTypeUnique(c, ancestor, tc, tc');
    }
  }

  /**
   * When `GetType` is a function of the column, a reported error names the
   * very types that failed the test, and the columns are not convertible.
   */
  lemma FailureDetermined(e: DiffError, a: Column, c: Column, convertible: Convertibility, ancestor: Ancestor)
    requires Commutative(ancestor) && Associative(ancestor)
    requires JustifiedFailure(e, a, c, convertible, ancestor)
    ensures !convertible(e.from, e.to)
    ensures !Convertible(a, c, convertible, ancestor)
  {
    var ta, tc :| PossibleType(a, ancestor, ta) && PossibleType(c, ancestor, tc) && !convertible(ta, tc);
    PossibleTypeUnique(a, ancestor, ta, e.from);
    PossibleTypeUnique(c, ancestor, tc, e.to);
    ConvertibleDetermined(a, c, convertible, ancestor);
  }

  /** The test `Diff` makes of a column both schemas have. */
  method CheckConversion(name: string, column: Column, currentColumn: Column,
                         convertible: Convertibility, ancestor: Ancestor)
    returns (failure: Option<DiffError>)
    ensures failure.None? ==> Convertible(column, currentColumn, convertible, ancestor)
    ensures failure.Some? ==> failure.value.column == name
    ensures failure.Some? ==> JustifiedFailure(failure.value, column, currentColumn, convertible, ancestor)
  {
    var newType := GetType(column, ancestor);
    var currentType := GetType(currentColumn, ancestor);
    if !convertible(newType, currentType) {
      var from := GetType(column, ancestor);
      var to := GetType(currentColumn, ancestor);
      return Some(UnsupportedTypeChange(name, from, to));
    }
    return None;
  }

  /** The column loop of `Diff`: new columns, or the first unconvertible shared column. */
  method DiffColumns(current: map<string, Column>, another: map<string, Column>,
                     convertible: Convertibility, ancestor: Ancestor)
    returns (r: Result<map<string, Column>, DiffError>)
    ensures r.Success? ==> r.value == NewColumns(current, another)
    ensures r.Success? ==> forall n :: n in current && n in another ==>
      Convertible(another[n], current[n], convertible, ancestor)
    ensures r.Failure? ==> r.error.column in another && r.error.column in current
    ensures r.Failure? ==>
      JustifiedFailure(r.error, another[r.error.column], current[r.error.column], convertible, ancestor)
  {
    var added: map<string, Column> := map[];
    var pending := another.Keys;
    while pending != {}
      invariant pending <= another.Keys
      invariant AddedSoFar(added, current, another, pending)
      invariant CheckedSoFar(current, another, pending, convertible, ancestor)
      decreases |pending|
    {
      var name :| name in pending;
      var column := another[name];
      if name in current {
        var failure := CheckConversion(name, column, current[name], convertible, ancestor);
        if failure.Some? {
          return Failure(failure.value);
        }
        AddedSoFarStep(added, current, another, pending, name);
        CheckedSoFarStep(current, another, pending, name, convertible, ancestor);
      } else {
        AddedSoFarNew(added, current, another, pending, name);
        added := added[name := column];
      }
      pending := pending - {name};
    }
    AddedSoFarDone(added, current, another);
    return Success(added);
  }

  /** `added` holds the new columns among the names of `another` not in `pending`. */
  ghost predicate AddedSoFar(added: map<string, Column>, current: map<string, Column>,
                             another: map<string, Column>, pending: set<string>) {
    && added.Keys == (another.Keys - pending) - current.Keys
    && forall n :: n in added ==> added[n] == another[n]
  }

  /** Every shared name of `another` not in `pending` has passed the conversion test. */
  ghost predicate CheckedSoFar(current: map<string, Column>, another: map<string, Column>, pending: set<string>,
                               convertible: Convertibility, ancestor: Ancestor) {
    forall n :: n in another && n !in pending && n in current ==>
      Convertible(another[n], current[n], convertible, ancestor)
  }

  lemma AddedSoFarStep(added: map<string, Column>, current: map<string, Column>,
                       another: map<string, Column>, pending: set<string>, name: string)
    requires AddedSoFar(added, current, another, pending) && name in pending && name in current
    ensures AddedSoFar(added, current, another, pending - {name})
  {
  }

  lemma AddedSoFarNew(added: map<string, Column>, current: map<string, Column>,
                      another: map<string, Column>, pending: set<string>, name: string)
    requires AddedSoFar(added, current, another, pending) && name in pending && name in another && name !in current
    ensures AddedSoFar(added[name := another[name]], current, another, pending - {name})
  {
  }

  lemma CheckedSoFarStep(current: map<string, Column>, another: map<string, Column>, pending: set<string>, name: string,
                         convertible: Convertibility, ancestor: Ancestor)
    requires CheckedSoFar(current, another, pending, convertible, ancestor)
    requires name in another && name in current
    requires Convertible(another[name], current[name], convertible, ancestor)
    ensures CheckedSoFar(current, another, pending - {name}, convertible, ancestor)
  {
  }

  /** Once nothing is pending, `added` is exactly the new columns. */
  lemma AddedSoFarDone(added: map<string, Column>, current: map<string, Column>, another: map<string, Column>)
    requires AddedSoFar(added, current, another, {})
    ensures added == NewColumns(current, another)
  {
  }

  /** The key part of `Diff`: the wanted key list, or nil when the two match. */
  method DiffKeys(cur: Option<seq<string>>, next: Option<seq<string>>) returns (pk: Option<seq<string>>)
    ensures KeyDiff(cur, next, pk)
  {
    var curKeys, newKeys := KeyList(cur), KeyList(next);
    var oldFields := new string[|curKeys|](k requires 0 <= k < |curKeys| => curKeys[k]);
    var newFields := new string[|newKeys|](k requires 0 <= k < |newKeys| => newKeys[k]);
    assert oldFields[..] == curKeys && newFields[..] == newKeys;
    var equal := PrimaryKeyFieldsEqual(oldFields, newFields);
    pk := None;
    if !equal && next.Some? {
      pk := Some(newFields[..]);
    }
    if |curKeys| != |newKeys| {
      assert newFields[..] == newKeys;
    }
  }

  /** Every column that both schemas have converts. */
  ghost predicate AllShared(current: map<string, Column>, another: map<string, Column>,
                            convertible: Convertibility, ancestor: Ancestor) {
    forall n :: n in current && n in another ==> Convertible(another[n], current[n], convertible, ancestor)
  }

  /** `Diff`: what must be added to `t` to reach `another`. */
  method Diff(t: Table, another: Option<Table>, convertible: Convertibility, ancestor: Ancestor)
    returns (r: Result<Table, DiffError>)
    ensures another.None? || another.value.columns == map[] ==> r == Success(Table(t.name, map[], None, 0))
    ensures r.Success? ==> r.value.name == t.name && r.value.version == 0
    ensures r.Success? && another.Some? ==> r.value.columns == NewColumns(t.columns, another.value.columns)
    ensures r.Success? && another.Some? && another.value.columns != map[] ==>
      KeyDiff(t.pkFields, another.value.pkFields, r.value.pkFields)
    ensures r.Success? && another.Some? ==> forall n :: n in t.columns && n in another.value.columns ==>
      Convertible(another.value.columns[n], t.columns[n], convertible, ancestor)
    ensures r.Failure? ==> another.Some? && r.error.column in another.value.columns && r.error.column in t.columns
    ensures r.Failure? && another.Some? && r.error.column in another.value.columns && r.error.column in t.columns ==>
      JustifiedFailure(r.error, another.value.columns[r.error.column], t.columns[r.error.column], convertible, ancestor)
    ensures Commutative(ancestor) && Associative(ancestor) ==>
      (r.Success? <==> another.None? || another.value.columns == map[] || AllShared(t.columns, another.value.columns, convertible, ancestor))
  {
    if another.None? || |another.value.columns| == 0 {
      return Success(Table(t.name, map[], None, 0));
    }
    var columns := DiffColumns(t.columns, another.value.columns, convertible, ancestor);
    if columns.Failure? {
      if Commutative(ancestor) && Associative(ancestor) {
        var name := columns.error.column;
        FailureDetermined(columns.error, another.value.columns[name], t.columns[name], convertible, ancestor);
      }
      return Failure(columns.error);
    }
    var pk := DiffKeys(t.pkFields, another.value.pkFields);
    return Success(Table(t.name, columns.value, pk, 0));
  }

  /** The difference is non-empty exactly when a column is new or the wanted key differs. */
  lemma {:induction false} DiffResultExists(t: Table, another: Table, diff: Table)
    requires diff.columns == NewColumns(t.columns, another.columns)
    requires KeyDiff(t.pkFields, another.pkFields, diff.pkFields)
    ensures Exists(Some(diff)) <==>
      (exists n :: n in another.columns && n !in t.columns)
      || (another.pkFields.Some? && multiset(KeyList(t.pkFields)) != multiset(KeyList(another.pkFields)))
  {
    if exists n :: n in another.columns && n !in t.columns {
      var n :| n in another.columns && n !in t.columns;
      assert n in diff.columns;
    }
  }

  /** Merging what `Diff` reports into the current columns yields every column of `another`. */
  lemma DiffCompletesColumns(current: map<string, Column>, another: map<string, Column>)
    ensures NewColumns(current, another).Keys !! current.Keys
    ensures Merged(current, NewColumns(current, another)).Keys == current.Keys + another.Keys
    ensures forall n :: n in another && n !in current ==> Merged(current, NewColumns(current, another))[n] == another[n]
    ensures forall n :: n in current ==> Merged(current, NewColumns(current, another))[n] == current[n]
  {
  }
}
