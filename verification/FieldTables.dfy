/**
 The field tables (`linx_hash_map.c`): named tables of named fields, each table bound to the
 address of the structure its fields live in, and the resolution of `table.field.arg` paths.
 */
module FieldTables {
  import opened Basics
  import opened CText

  datatype FieldType =
    | Unknown | Int8 | UInt8 | Int16 | UInt16 | Int32 | UInt32 | Int64 | UInt64
    | CharBuf | ByteBufType | CharBufArray | CharBufPairArray | ByteBufArray
    | Bool | Float | Double | Uid | Pid | SockTupleType | Struct

  datatype Field = Field(offset: nat, size: nat, kind: FieldType)
  datatype Table = Table(base: nat, fields: map<string, Field>)
  datatype Mapping = Mapping(name: string, field: Field)
  datatype Update = Update(table: string, base: nat)
  datatype Param = Param(name: string, kind: FieldType)

  /** What a lookup returns; the zeroed record when nothing was found. */
  datatype FieldResult = FieldResult(found: bool, field: Field, table: string, name: string, arg: Option<string>)

  const NOT_FOUND := FieldResult(false, Field(0, 0, Unknown), "", "", None)

  /** A 64-bit address; `kind` is missing when it would be read outside the parameter table. */
  datatype Pointer = Null | At(address: nat, kind: Option<FieldType>)

  // ---------------------------------------------------------------------------
  // Batches of fields

  predicate Distinct(ms: seq<Mapping>) {
    forall i, j :: 0 <= i < j < |ms| ==> ms[i].name != ms[j].name
  }

  function FieldsOf(ms: seq<Mapping>): map<string, Field> {
    if ms == [] then map[]
    else FieldsOf(ms[..|ms| - 1])[ms[|ms| - 1].name := ms[|ms| - 1].field]
  }

  /** Length of the longest prefix without a repeated name. */
  function DistinctLength(ms: seq<Mapping>): (n: nat)
    ensures n <= |ms| && Distinct(ms[..n])
    ensures n < |ms| ==> exists i :: 0 <= i < n && ms[i].name == ms[n].name
  {
    if ms == [] then 0
    else
      var n := DistinctLength(ms[..|ms| - 1]);
      assert ms[..|ms| - 1][..n] == ms[..n];
      var last := ms[|ms| - 1];
      if n < |ms| - 1 || exists i :: 0 <= i < |ms| - 1 && ms[i].name == last.name then n else n + 1
  }

  lemma {:induction false} FieldsOfKeys(ms: seq<Mapping>)
    ensures FieldsOf(ms).Keys == set i | 0 <= i < |ms| :: ms[i].name
  {
    if ms != [] {
      var k := |ms| - 1;
      FieldsOfKeys(ms[..k]);
      forall name | name in FieldsOf(ms).Keys ensures exists i :: 0 <= i < |ms| && ms[i].name == name {
        if name != ms[k].name {
          var i :| 0 <= i < k && ms[..k][i].name == name;
          assert ms[i].name == name;
        }
      }
      forall i | 0 <= i < |ms| ensures ms[i].name in FieldsOf(ms).Keys {
        if i < k {
          assert ms[..k][i].name in FieldsOf(ms[..k]).Keys;
        }
      }
    }
  }

  /** In a batch without repeated names every mapping can be read back unchanged. */
  lemma {:induction false} FieldsOfDistinct(ms: seq<Mapping>, i: nat)
    requires Distinct(ms) && i < |ms|
    ensures ms[i].name in FieldsOf(ms) && FieldsOf(ms)[ms[i].name] == ms[i].field
  {
    var k := |ms| - 1;
    if i < k {
      FieldsOfDistinct(ms[..k], i);
      assert ms[..k][i] == ms[i];
    }
  }

  lemma NoFields()
    ensures FieldsOf([]) == map[]
  {
  }

  /** One more field, of a new name. */
  lemma OneMore(ms: seq<Mapping>, i: nat)
    requires i < |ms| && Distinct(ms[..i]) && ms[i].name !in FieldsOf(ms[..i])
    ensures Distinct(ms[..i + 1]) && FieldsOf(ms[..i + 1]) == FieldsOf(ms[..i])[ms[i].name := ms[i].field]
  {
    assert ms[..i + 1][..i] == ms[..i];
    FieldsOfKeys(ms[..i]);
    forall a, b | 0 <= a < b < i + 1 ensures ms[a].name != ms[b].name {
      if b == i {
        assert ms[..i][a].name in FieldsOf(ms[..i]).Keys;
      } else {
        NoRepeat(ms, i, a, b);
      }
    }
  }

  lemma NoRepeat(ms: seq<Mapping>, n: nat, i: nat, j: nat)
    requires i < j < n <= |ms| && Distinct(ms[..n])
    ensures ms[i].name != ms[j].name
  {
    assert ms[..n][i].name != ms[..n][j].name;
  }

  lemma DistinctLengthIs(ms: seq<Mapping>, n: nat)
    requires n <= |ms| && Distinct(ms[..n])
    requires n < |ms| ==> exists i :: 0 <= i < n && ms[i].name == ms[n].name
    ensures DistinctLength(ms) == n
  {
    var m := DistinctLength(ms);
    if m < n {
      var i :| 0 <= i < m && ms[i].name == ms[m].name;
      NoRepeat(ms, n, i, m);
    } else if n < m {
      var i :| 0 <= i < n && ms[i].name == ms[n].name;
      NoRepeat(ms, m, i, n);
    }
  }

  lemma DistinctAtLeast(ms: seq<Mapping>, n: nat)
    requires n <= |ms| && Distinct(ms[..n])
    ensures n <= DistinctLength(ms)
    ensures DistinctLength(ms) == |ms| <==> Distinct(ms)
  {
    var m := DistinctLength(ms);
    assert m == |ms| ==> ms[..m] == ms;
    if m < |ms| {
      var i :| 0 <= i < m && ms[i].name == ms[m].name;
      if m < n {
        NoRepeat(ms, n, i, m);
      }
    }
  }

  function Shorter(a: nat, b: nat): nat {
    if a < b then a else b
  }

  // ---------------------------------------------------------------------------
  // Batches of base addresses

  /** How many updates come before the first that names no table. */
  function FirstMissing(us: seq<Update>, names: set<string>): (n: nat)
    ensures n <= |us|
    ensures forall i :: 0 <= i < n ==> us[i].table in names
    ensures n < |us| ==> us[n].table !in names
  {
    if us == [] || us[0].table !in names then 0
    else
      var n := FirstMissing(us[1..], names);
      assert forall i :: 1 <= i < n + 1 ==> us[i] == us[1..][i - 1];
      n + 1
  }

  /** The base a table ends up with: that of the last update naming it, else the one it had. */
  function LastBase(us: seq<Update>, name: string, base: nat): nat {
    if us == [] then base
    else if us[|us| - 1].table == name then us[|us| - 1].base
    else LastBase(us[..|us| - 1], name, base)
  }

  /** Same tables and fields; bases as the updates say. */
  ghost predicate Rebound(before: map<string, Table>, after: map<string, Table>, us: seq<Update>) {
    && after.Keys == before.Keys
    && forall t :: t in before ==> after[t] == Table(LastBase(us, t, before[t].base), before[t].fields)
  }

  // ---------------------------------------------------------------------------
  // Paths

  function Lookup(tables: map<string, Table>, table: string, field: string): FieldResult {
    if table !in tables || field !in tables[table].fields then NOT_FOUND
    else FieldResult(true, tables[table].fields[field], table, field, None)
  }

  /** The first three words of a path: table, field and argument; further words are ignored. */
  function ByPath(tables: map<string, Table>, path: string): FieldResult {
    var words := Tokens(path);
    if |words| < 2 then NOT_FOUND
    else Lookup(tables, words[0], words[1]).(arg := if |words| == 2 then None else Some(words[2]))
  }

  /** An argument that `strtol` consumes whole. */
  predicate IsNumber(arg: string) {
    Strtol(arg).end == |arg|
  }

  /** `i` is the first parameter of that name, or the parameter count when there is none. */
  predicate FirstNamed(params: seq<Param>, name: string, i: nat) {
    && i <= |params|
    && (forall k :: 0 <= k < i ==> params[k].name != name)
    && (i < |params| ==> params[i].name == name)
  }

  /** What a resolved field designates for an event with these parameters. */
  ghost predicate Designates(p: Pointer, r: FieldResult, tables: map<string, Table>, params: seq<Param>) {
    if !r.found || r.table !in tables || tables[r.table].base == 0 then p == Null
    else
      var start := tables[r.table].base + r.field.offset;
      if r.arg.None? then p == At(start % U64, Some(r.field.kind))
      else if IsNumber(r.arg.value) then p == SlotPointer(start, params, Strtol(r.arg.value).value)
      else exists i: nat :: FirstNamed(params, r.arg.value, i) && p == SlotPointer(start, params, i)
  }

  /** Only an index past the parameters is refused; the offset is an unsigned product, so it wraps. */
  function SlotPointer(start: nat, params: seq<Param>, index: int): Pointer {
    if index >= |params| then Null
    else At((start + 8 * index) % U64, if index < 0 then None else Some(params[index].kind))
  }

  /**
   A path answers nothing if it has fewer than two words, or names no table, no field of it, or
   a table that is not bound to a structure; otherwise it answers nothing exactly when its
   argument is an index or a name past the parameters.
   */
  lemma PathAnswersNothing(tables: map<string, Table>, path: string, params: seq<Param>, p: Pointer)
    requires Designates(p, ByPath(tables, path), tables, params)
    ensures var words := Tokens(path);
            if |words| < 2 || words[0] !in tables || words[1] !in tables[words[0]].fields || tables[words[0]].base == 0
            then p == Null
            else p == Null <==>
                 && |words| > 2
                 && if IsNumber(words[2]) then Strtol(words[2]).value >= |params|
                    else forall k :: 0 <= k < |params| ==> params[k].name != words[2]
  {
    hide Tokens, Strtol;
    var words := Tokens(path);
    var r := ByPath(tables, path);
    if r.found && tables[r.table].base != 0 && r.arg.Some? && !IsNumber(r.arg.value) {
      var start := tables[r.table].base + r.field.offset;
      var i: nat :| FirstNamed(params, r.arg.value, i) && p == SlotPointer(start, params, i);
    }
  }

  lemma FirstNamedUnique(params: seq<Param>, name: string, i: nat, j: nat)
    requires FirstNamed(params, name, i) && FirstNamed(params, name, j)
    ensures i == j
  {
  }

  /** A field keeps its meaning when a path names it by position or by a unique name. */
  lemma NumberOrName(p: Pointer, q: Pointer, r: FieldResult, tables: map<string, Table>, params: seq<Param>, i: nat)
    requires i < |params| <= 32 && FirstNamed(params, params[i].name, i) && !IsNumber(params[i].name)
    requires Designates(p, r.(arg := Some(params[i].name)), tables, params)
    requires Designates(q, r.(arg := Some(PrintInt(i))), tables, params)
    ensures p == q
  {
    hide Strtol, PrintInt;
    StrtolOfPrinted(i);
    if r.found && r.table in tables && tables[r.table].base != 0 {
      var start := tables[r.table].base + r.field.offset;
      var j: nat :| FirstNamed(params, params[i].name, j) && p == SlotPointer(start, params, j);
      FirstNamedUnique(params, params[i].name, i, j);
    }
  }

  class HashMap {
    var ready: bool
    var tables: map<string, Table>

    constructor ()
      ensures !ready && tables == map[]
    {
      ready, tables := false, map[];
    }

    method Init(memory: bool) returns (ok: bool)
      modifies this
      ensures ok == (!old(ready) && memory) && ready == (old(ready) || memory)
      ensures tables == if ok then map[] else old(tables)
    {
      if ready {
        return false;
      }
      if !memory {
        return false;
      }
      ready, tables := true, map[];
      ok := true;
    }

    method CreateTable(name: string, base: nat, memory: bool) returns (ok: bool)
      modifies this`tables
      ensures ok == (ready && name !in old(tables) && memory)
      ensures tables == if ok then old(tables)[name := Table(base, map[])] else old(tables)
    {
      if !ready || name in tables {
        return false;
      }
      if !memory {
        return false;
      }
      tables := tables[name := Table(base, map[])];
      ok := true;
    }

    method AddField(table: string, name: string, field: Field, memory: bool) returns (ok: bool)
      modifies this`tables
      ensures ok == (ready && table in old(tables) && name !in old(tables)[table].fields && memory)
      ensures tables == if !ok then old(tables)
                        else
                          var was := old(tables)[table];
                          old(tables)[table := was.(fields := was.fields[name := field])]
    {
      if !ready || table !in tables || name in tables[table].fields {
        return false;
      }
      if !memory {
        return false;
      }
      tables := tables[table := tables[table].(fields := tables[table].fields[name := field])];
      ok := true;
    }

    /**
     `allocations` is how many allocations succeed before one fails. A batch succeeds exactly
     when the table is new, no name repeats and none fails; what it leaves is the fields of the
     longest prefix without a repetition or a failure, the whole batch when it succeeds.
     */
    method AddFieldBatch(table: string, ms: seq<Mapping>, allocations: nat) returns (ok: bool)
      modifies this`tables
      ensures ok == (ready && table !in old(tables) && Distinct(ms) && |ms| < allocations)
      ensures !ready || table in old(tables) || allocations == 0 ==> tables == old(tables)
      ensures ready && table !in old(tables) && allocations > 0 ==>
                tables == old(tables)[table := Table(0, FieldsOf(ms[..Shorter(DistinctLength(ms), allocations - 1)]))]
      ensures ok ==> DistinctLength(ms) == |ms|
    {
      hide FieldsOf, DistinctLength;
      ok := CreateTable(table, 0, allocations > 0);
      if !ok {
        return;
      }
      var i := 0;
      NoFields();
      while i < |ms|
        invariant 0 <= i <= |ms| && ready && table !in old(tables) && i < allocations
        invariant Distinct(ms[..i])
        invariant tables == old(tables)[table := Table(0, FieldsOf(ms[..i]))]
      {
        FieldsOfKeys(ms[..i]);
        ok := AddField(table, ms[i].name, ms[i].field, i + 1 < allocations);
        if !ok && ms[i].name !in FieldsOf(ms[..i]) {
          DistinctAtLeast(ms, i);
          return;
        }
        if !ok {
          var j :| 0 <= j < i && ms[..i][j].name == ms[i].name;
          assert ms[j].name == ms[i].name;
          DistinctLengthIs(ms, i);
          return;
        }
        OneMore(ms, i);
        i := i + 1;
      }
      ok := true;
      assert ms[..i] == ms;
      DistinctLengthIs(ms, i);
    }

    method UpdateTableBase(table: string, base: nat) returns (ok: bool)
      modifies this`tables
      ensures ok == (ready && table in old(tables))
      ensures tables == if ok then old(tables)[table := old(tables)[table].(base := base)] else old(tables)
    {
      if !ready || table !in tables {
        return false;
      }
      tables := tables[table := tables[table].(base := base)];
      ok := true;
    }

    /** Exactly the updates before the first missing name take effect; success means none is missing. */
    method UpdateTablesBase(us: seq<Update>) returns (ok: bool)
      modifies this`tables
      ensures ok == (ready && forall i :: 0 <= i < |us| ==> us[i].table in old(tables))
      ensures !ready ==> tables == old(tables)
      ensures ready ==> Rebound(old(tables), tables, us[..FirstMissing(us, old(tables).Keys)])
    {
      if !ready {
        return false;
      }
      var i := 0;
      while i < |us|
        invariant 0 <= i <= |us| && ready
        invariant forall k :: 0 <= k < i ==> us[k].table in old(tables)
        invariant Rebound(old(tables), tables, us[..i])
      {
        ok := UpdateTableBase(us[i].table, us[i].base);
        if !ok {
          assert FirstMissing(us, old(tables).Keys) == i;
          return;
        }
        assert us[..i + 1][..i] == us[..i];
        i := i + 1;
      }
      ok := true;
      assert FirstMissing(us, old(tables).Keys) == i;
    }

    method GetField(table: string, field: string) returns (r: FieldResult)
      ensures r == if ready then Lookup(tables, table, field) else NOT_FOUND
    {
      if !ready || table !in tables {
        return NOT_FOUND;
      }
      if field !in tables[table].fields {
        return NOT_FOUND;
      }
      r := FieldResult(true, tables[table].fields[field], table, field, None);
    }

    method GetFieldByPath(path: string) returns (r: FieldResult)
      ensures ready ==> r == ByPath(tables, path)
      ensures !ready ==> !r.found
    {
      hide Tokens;
      var found, table, next := NextToken(path, 0);
      assert path[0..] == path;
      if !found {
        return NOT_FOUND;
      }
      var field;
      found, field, next := NextToken(path, next);
      if !found {
        return NOT_FOUND;
      }
      r := GetField(table, field);
      var arg;
      found, arg, next := NextToken(path, next);
      r := r.(arg := if found then Some(arg) else None);
    }

    method GetValuePtr(r: FieldResult, params: seq<Param>) returns (p: Pointer)
      ensures ready ==> Designates(p, r, tables, params)
      ensures !ready ==> p == Null
    {
      hide Strtol;
      if !r.found || !ready || r.table !in tables {
        return Null;
      }
      var base := tables[r.table].base;
      if base == 0 {
        return Null;
      }
      if r.arg.None? {
        return At((base + r.field.offset) % U64, Some(r.field.kind));
      }
      var parsed := Strtol(r.arg.value);
      var index := parsed.value;
      if parsed.end != |r.arg.value| {
        index := 0;
        while index < |params|
          invariant 0 <= index <= |params|
          invariant forall k :: 0 <= k < index ==> params[k].name != r.arg.value
        {
          if params[index].name == r.arg.value {
            break;
          }
          index := index + 1;
        }
        assert FirstNamed(params, r.arg.value, index);
      }
      if index >= |params| {
        return Null;
      }
      p := At((base + r.field.offset + 8 * index) % U64, if index < 0 then None else Some(params[index].kind));
    }
  }
}
