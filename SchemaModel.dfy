/** The schema model as values (tables, columns, foreign references) and the
    column extraction that both copies of the program share: the text of
    `generateColumnProperties` and `toTable` is the same in
    cmd/sql2diagram/main.go and in main.go. The classes of the two programs
    are proved to hold exactly these values. */
module SchemaModel {
  import opened PgQuery
  import opened Results

  /** A foreign-key target: it names a table and a column, it does not
      point at them. */
  datatype RefV = RefV(table: string, column: string)

  /** `constraints` is the program's list of tags, duplicates included. */
  datatype ColumnV = ColumnV(
    name: string,
    sqlType: string,
    constraints: seq<string>,
    refs: seq<RefV>,
    length: int)

  datatype TableV = TableV(name: string, columns: seq<ColumnV>)

  datatype SchemaError = UnknownTable

  /** The two constraint tags; the NOT NULL tag is spelt with a space. */
  const Primary: string := "primary"
  const NotNull: string := "not null"

  function Count<T(==)>(s: seq<T>, x: T): (n: nat)
    ensures n <= |s|
    decreases |s|
  {
    if s == [] then 0
    else Count(s[..|s| - 1], x) + (if s[|s| - 1] == x then 1 else 0)
  }

  /** A tag list has `x` exactly when it counts it at least once. */
  lemma {:induction false} CountPositive<T>(s: seq<T>, x: T)
    ensures Count(s, x) > 0 <==> x in s
    decreases |s|
  {
    if s != [] {
      CountPositive(s[..|s| - 1], x);
      assert s == s[..|s| - 1] + [s[|s| - 1]];
    }
  }

  /** The integer value of the last integer constant among the type
      modifiers, if any. */
  function LastInt(mods: seq<Node>): Option<int>
    decreases |mods|
  {
    if mods == [] then None
    else
      match mods[|mods| - 1]
      case AConstNode(AConst(IntegerVal(v))) => Some(v as int)
      case _ => LastInt(mods[..|mods| - 1])
  }

  // ----- one column constraint -----

  /** An inline foreign key: the reference names the referenced table and
      the last String primary-key attribute ("" when there is none), and it
      is dropped when some (table, String attribute) pair is already a
      reference of the column. */
  function ForeignStep(c: ColumnV, pktable: string, pks: seq<string>): ColumnV
  {
    if exists p :: p in pks && RefV(pktable, p) in c.refs then c
    else c.(refs := c.refs + [RefV(pktable, LastOr(pks, ""))])
  }

  function ApplyConstraint(c: ColumnV, n: Node): ColumnV
  {
    match n
    case ConstraintNode(k) =>
      (match k.contype
       case ConstrPrimary => c.(constraints := c.constraints + [Primary])
       case ConstrForeign => ForeignStep(c, k.pktable.relname, StringVals(k.pkAttrs))
       case ConstrNotNull =>
         if NotNull in c.constraints then c else c.(constraints := c.constraints + [NotNull])
       case ConstrOther => c)
    case _ => c
  }

  /** The constraint loop, one pass over the column's constraint nodes. */
  function ApplyConstraints(c: ColumnV, ns: seq<Node>): ColumnV
    decreases |ns|
  {
    if ns == [] then c else ApplyConstraint(ApplyConstraints(c, ns[..|ns| - 1]), ns[|ns| - 1])
  }

  /** What one String name node of the type does: it sets the type, reruns
      the type-modifier loop and reruns the whole constraint loop. */
  function NameStep(c: ColumnV, sval: string, def: ColumnDef): ColumnV
  {
    var len := match LastInt(def.typeName.typmods) case Some(v) => v case None => c.length;
    ApplyConstraints(c.(sqlType := sval, length := len), def.constraints)
  }

  function ApplyNames(c: ColumnV, ns: seq<Node>, def: ColumnDef): ColumnV
    decreases |ns|
  {
    if ns == [] then c
    else
      var prev := ApplyNames(c, ns[..|ns| - 1], def);
      match ns[|ns| - 1]
      case StringNode(s) => NameStep(prev, s, def)
      case _ => prev
  }

  /** The column built from one column definition. */
  function ExtractColumn(def: ColumnDef): ColumnV
  {
    ApplyNames(ColumnV(def.colname, "", [], [], 0), def.typeName.names, def)
  }

  /** The columns of a CREATE TABLE: one per ColumnDef element. */
  function TableColumns(elts: seq<Node>): seq<ColumnV>
    decreases |elts|
  {
    if elts == [] then []
    else
      var init := TableColumns(elts[..|elts| - 1]);
      match elts[|elts| - 1]
      case ColumnDefNode(d) => init + [ExtractColumn(d)]
      case _ => init
  }

  function ToTableV(s: CreateStmt): TableV
  {
    TableV(s.relation.relname, TableColumns(s.tableElts))
  }

  // ----- properties of the extraction -----

  function NumPrimary(ns: seq<Node>): nat
    decreases |ns|
  {
    if ns == [] then 0
    else
      NumPrimary(ns[..|ns| - 1]) +
      (match ns[|ns| - 1] case ConstraintNode(k) => (if k.contype == ConstrPrimary then 1 else 0) case _ => 0)
  }

  lemma CountAppend<T>(s: seq<T>, t: T, x: T)
    ensures Count(s + [t], x) == Count(s, x) + (if t == x then 1 else 0)
  {
    assert (s + [t])[..|s + [t]| - 1] == s;
  }

  lemma {:induction false} ConstraintsKeepIdentity(c: ColumnV, ns: seq<Node>)
    ensures var r := ApplyConstraints(c, ns);
      r.name == c.name && r.sqlType == c.sqlType && r.length == c.length
    decreases |ns|
  {
    if ns != [] { ConstraintsKeepIdentity(c, ns[..|ns| - 1]); }
  }

  /** Name node by name node: the name is kept, the type is the last String
      name, and the length is the last integer modifier once a String name
      was seen. With no String name nothing is set at all. */
  lemma {:induction false} NamesShape(c: ColumnV, ns: seq<Node>, def: ColumnDef)
    ensures var r := ApplyNames(c, ns, def);
      r.name == c.name &&
      r.sqlType == LastOr(StringVals(ns), c.sqlType) &&
      r.length == (if StringVals(ns) == [] then c.length
                   else match LastInt(def.typeName.typmods) case Some(v) => v case None => c.length) &&
      (StringVals(ns) == [] ==> r == c)
    decreases |ns|
  {
    if ns != [] {
      var prev := ApplyNames(c, ns[..|ns| - 1], def);
      NamesShape(c, ns[..|ns| - 1], def);
      match ns[|ns| - 1]
      case StringNode(s) =>
        var len := match LastInt(def.typeName.typmods) case Some(v) => v case None => prev.length;
        ConstraintsKeepIdentity(prev.(sqlType := s, length := len), def.constraints);
      case _ =>
    }
  }

  /** ExtractColumn takes its name from Colname, its type from the LAST
      String node of the type's names, and its length from the last integer
      type modifier (0 without one). A type with no String name leaves the
      column as it was created: empty type, length 0, no tags, no
      references. */
  lemma ExtractColumnShape(def: ColumnDef)
    ensures var r := ExtractColumn(def);
      var names := StringVals(def.typeName.names);
      r.name == def.colname &&
      r.sqlType == LastOr(names, "") &&
      r.length == (if names == [] then 0
                   else match LastInt(def.typeName.typmods) case Some(v) => v case None => 0) &&
      (names == [] ==> r.constraints == [] && r.refs == [])
  {
    NamesShape(ColumnV(def.colname, "", [], [], 0), def.typeName.names, def);
  }

  lemma {:induction false} ConstraintsNotNullOnce(c: ColumnV, ns: seq<Node>)
    requires Count(c.constraints, NotNull) <= 1
    ensures Count(ApplyConstraints(c, ns).constraints, NotNull) <= 1
    decreases |ns|
  {
    if ns != [] {
      ConstraintsNotNullOnce(c, ns[..|ns| - 1]);
      ConstraintNotNullOnce(ApplyConstraints(c, ns[..|ns| - 1]), ns[|ns| - 1]);
    }
  }

  lemma ConstraintNotNullOnce(c: ColumnV, n: Node)
    requires Count(c.constraints, NotNull) <= 1
    ensures Count(ApplyConstraint(c, n).constraints, NotNull) <= 1
  {
    if n.ConstraintNode? {
      match n.constraint.contype
      case ConstrPrimary =>
        CountAppend(c.constraints, Primary, NotNull);
      case ConstrNotNull =>
        if NotNull !in c.constraints {
          CountPositive(c.constraints, NotNull);
          CountAppend(c.constraints, NotNull, NotNull);
        }
      case ConstrForeign =>
      case ConstrOther =>
    }
  }

  lemma {:induction false} NamesNotNullOnce(c: ColumnV, ns: seq<Node>, def: ColumnDef)
    requires Count(c.constraints, NotNull) <= 1
    ensures Count(ApplyNames(c, ns, def).constraints, NotNull) <= 1
    decreases |ns|
  {
    if ns != [] {
      var prev := ApplyNames(c, ns[..|ns| - 1], def);
      NamesNotNullOnce(c, ns[..|ns| - 1], def);
      match ns[|ns| - 1]
      case StringNode(s) =>
        var len := match LastInt(def.typeName.typmods) case Some(v) => v case None => prev.length;
        ConstraintsNotNullOnce(prev.(sqlType := s, length := len), def.constraints);
      case _ =>
    }
  }

  /** However many NOT NULL constraints the column has, and however often
      the constraint loop reruns, "not null" is in the tag list at most
      once. */
  lemma NotNullAtMostOnce(def: ColumnDef)
    ensures Count(ExtractColumn(def).constraints, NotNull) <= 1
  {
    NamesNotNullOnce(ColumnV(def.colname, "", [], [], 0), def.typeName.names, def);
  }

  /** Whether a node is an inline NOT NULL constraint. */
  predicate IsNotNullNode(n: Node)
  {
    n.ConstraintNode? && n.constraint.contype == ConstrNotNull
  }

  predicate HasNotNullNode(ns: seq<Node>)
  {
    exists i :: 0 <= i < |ns| && IsNotNullNode(ns[i])
  }

  lemma HasNotNullNodeSnoc(ns: seq<Node>)
    requires ns != []
    ensures HasNotNullNode(ns) <==> HasNotNullNode(ns[..|ns| - 1]) || IsNotNullNode(ns[|ns| - 1])
  {
    var init := ns[..|ns| - 1];
    if HasNotNullNode(ns) && !IsNotNullNode(ns[|ns| - 1]) {
      var i :| 0 <= i < |ns| && IsNotNullNode(ns[i]);
      assert init[i] == ns[i];
    }
    if HasNotNullNode(init) {
      var i :| 0 <= i < |init| && IsNotNullNode(init[i]);
      assert ns[i] == init[i];
    }
  }

  lemma TagsDistinct()
    ensures Primary != NotNull
  {
    assert Primary[0] == 'p' && NotNull[0] == 'n';
  }

  /** One constraint node: the column has "not null" afterwards exactly
      when it had it before or the node is a NOT NULL constraint. */
  lemma ConstraintNotNullPresent(c: ColumnV, n: Node)
    ensures NotNull in ApplyConstraint(c, n).constraints <==> NotNull in c.constraints || IsNotNullNode(n)
  {
    if n.ConstraintNode? && n.constraint.contype == ConstrPrimary {
      TagsDistinct();
      assert c.constraints + [Primary] == ApplyConstraint(c, n).constraints;
    }
  }

  lemma {:induction false} ConstraintsNotNullPresent(c: ColumnV, ns: seq<Node>)
    ensures NotNull in ApplyConstraints(c, ns).constraints <==> NotNull in c.constraints || HasNotNullNode(ns)
    decreases |ns|
  {
    if ns != [] {
      ConstraintsNotNullPresent(c, ns[..|ns| - 1]);
      ConstraintNotNullPresent(ApplyConstraints(c, ns[..|ns| - 1]), ns[|ns| - 1]);
      HasNotNullNodeSnoc(ns);
    }
  }

  lemma {:induction false} NamesNotNullPresent(c: ColumnV, ns: seq<Node>, def: ColumnDef)
    ensures NotNull in ApplyNames(c, ns, def).constraints
        <==> NotNull in c.constraints || (StringVals(ns) != [] && HasNotNullNode(def.constraints))
    decreases |ns|
  {
    if ns != [] {
      var prev := ApplyNames(c, ns[..|ns| - 1], def);
      NamesNotNullPresent(c, ns[..|ns| - 1], def);
      StringValsSnoc(ns, |ns| - 1);
      assert ns[..|ns|] == ns;
      match ns[|ns| - 1]
      case StringNode(s) =>
        var len := match LastInt(def.typeName.typmods) case Some(v) => v case None => prev.length;
        ConstraintsNotNullPresent(prev.(sqlType := s, length := len), def.constraints);
      case _ =>
    }
  }

  /** A column whose type has a String name carries "not null" exactly
      once when it has an inline NOT NULL constraint, and not at all
      otherwise; a type with no String name never reaches the constraint
      loop. */
  lemma NotNullExactlyOnce(def: ColumnDef)
    ensures Count(ExtractColumn(def).constraints, NotNull)
         == if StringVals(def.typeName.names) != [] && HasNotNullNode(def.constraints) then 1 else 0
  {
    NotNullAtMostOnce(def);
    NamesNotNullPresent(ColumnV(def.colname, "", [], [], 0), def.typeName.names, def);
    CountPositive(ExtractColumn(def).constraints, NotNull);
  }

  lemma {:induction false} ConstraintsAddPrimary(c: ColumnV, ns: seq<Node>)
    ensures Count(ApplyConstraints(c, ns).constraints, Primary) == Count(c.constraints, Primary) + NumPrimary(ns)
    decreases |ns|
  {
    if ns != [] {
      var prev := ApplyConstraints(c, ns[..|ns| - 1]);
      ConstraintsAddPrimary(c, ns[..|ns| - 1]);
      CountAppend(prev.constraints, Primary, Primary);
      CountAppend(prev.constraints, NotNull, Primary);
    }
  }

  /** Proof helper: the arithmetic step of NamesAddPrimary. */
  lemma MulSucc(k: nat, n: nat)
    ensures (k + 1) * n == k * n + n
  {
  }

  lemma {:induction false} NamesAddPrimary(c: ColumnV, ns: seq<Node>, def: ColumnDef)
    ensures Count(ApplyNames(c, ns, def).constraints, Primary)
         == Count(c.constraints, Primary) + |StringVals(ns)| * NumPrimary(def.constraints)
    decreases |ns|
  {
    if ns != [] {
      var prev := ApplyNames(c, ns[..|ns| - 1], def);
      NamesAddPrimary(c, ns[..|ns| - 1], def);
      match ns[|ns| - 1]
      case StringNode(s) =>
        var len := match LastInt(def.typeName.typmods) case Some(v) => v case None => prev.length;
        ConstraintsAddPrimary(prev.(sqlType := s, length := len), def.constraints);
        var k, n := |StringVals(ns[..|ns| - 1])|, NumPrimary(def.constraints);
        assert |StringVals(ns)| == k + 1;
        MulSucc(k, n);
      case _ =>
        assert StringVals(ns) == StringVals(ns[..|ns| - 1]);
    }
  }

  /** "primary" has no guard: it is appended once per PRIMARY KEY
      constraint on every pass of the constraint loop, that is once per
      String name of the type (a type written `pg_catalog.int4` tags an
      inline primary key twice). */
  lemma PrimaryPerNamePass(def: ColumnDef)
    ensures Count(ExtractColumn(def).constraints, Primary)
         == |StringVals(def.typeName.names)| * NumPrimary(def.constraints)
  {
    NamesAddPrimary(ColumnV(def.colname, "", [], [], 0), def.typeName.names, def);
  }

  /** Two equal entries of a reference list are both target-less: an inline
      foreign key with no String primary-key attribute is the only one the
      dedup check cannot catch. */
  ghost predicate RefsDeduped(refs: seq<RefV>)
  {
    forall i, j :: 0 <= i < j < |refs| && refs[i] == refs[j] ==> refs[j].column == ""
  }

  lemma ForeignStepDedups(c: ColumnV, pktable: string, pks: seq<string>)
    requires RefsDeduped(c.refs)
    ensures RefsDeduped(ForeignStep(c, pktable, pks).refs)
  {
    if !exists p :: p in pks && RefV(pktable, p) in c.refs {
      var nr := RefV(pktable, LastOr(pks, ""));
      var refs := c.refs + [nr];
      if pks != [] {
        assert pks[|pks| - 1] in pks;
        assert nr !in c.refs;
      }
      forall i, j | 0 <= i < j < |refs| && refs[i] == refs[j] ensures refs[j].column == "" {
        assert refs[i] == c.refs[i];
      }
    }
  }

  lemma {:induction false} ConstraintsDedup(c: ColumnV, ns: seq<Node>)
    requires RefsDeduped(c.refs)
    ensures RefsDeduped(ApplyConstraints(c, ns).refs)
    decreases |ns|
  {
    if ns != [] {
      var prev := ApplyConstraints(c, ns[..|ns| - 1]);
      ConstraintsDedup(c, ns[..|ns| - 1]);
      match ns[|ns| - 1]
      case ConstraintNode(k) =>
        if k.contype == ConstrForeign {
          ForeignStepDedups(prev, k.pktable.relname, StringVals(k.pkAttrs));
        }
      case _ =>
    }
  }

  lemma {:induction false} NamesDedup(c: ColumnV, ns: seq<Node>, def: ColumnDef)
    requires RefsDeduped(c.refs)
    ensures RefsDeduped(ApplyNames(c, ns, def).refs)
    decreases |ns|
  {
    if ns != [] {
      var prev := ApplyNames(c, ns[..|ns| - 1], def);
      NamesDedup(c, ns[..|ns| - 1], def);
      match ns[|ns| - 1]
      case StringNode(s) =>
        var len := match LastInt(def.typeName.typmods) case Some(v) => v case None => prev.length;
        ConstraintsDedup(prev.(sqlType := s, length := len), def.constraints);
      case _ =>
    }
  }

  /** The inline foreign-key references of an extracted column repeat only
      when they have no target column. */
  lemma InlineReferencesDeduped(def: ColumnDef)
    ensures RefsDeduped(ExtractColumn(def).refs)
  {
    NamesDedup(ColumnV(def.colname, "", [], [], 0), def.typeName.names, def);
  }

  /** Rerunning an inline foreign key that has a String primary-key
      attribute adds nothing: the reference it would append is already
      there. */
  lemma ForeignStepIdempotent(c: ColumnV, pktable: string, pks: seq<string>)
    requires pks != []
    ensures ForeignStep(ForeignStep(c, pktable, pks), pktable, pks) == ForeignStep(c, pktable, pks)
  {
    if !exists p :: p in pks && RefV(pktable, p) in c.refs {
      var once := ForeignStep(c, pktable, pks);
      var last := pks[|pks| - 1];
      assert last in pks && RefV(pktable, last) in once.refs;
    }
  }

  /** The ColumnDef elements of a CREATE TABLE, in order. */
  function ColumnDefs(elts: seq<Node>): (defs: seq<ColumnDef>)
    ensures |defs| <= |elts|
    decreases |elts|
  {
    if elts == [] then []
    else
      var init := ColumnDefs(elts[..|elts| - 1]);
      match elts[|elts| - 1]
      case ColumnDefNode(d) => init + [d]
      case _ => init
  }

  /** toTable keeps exactly the ColumnDef elements, in declaration order,
      and makes one column of each; every other table element (such as a
      table-level constraint) is skipped. */
  lemma {:induction false} ToTableKeepsColumnDefs(elts: seq<Node>)
    ensures |TableColumns(elts)| == |ColumnDefs(elts)|
    ensures forall i :: 0 <= i < |ColumnDefs(elts)| ==> TableColumns(elts)[i] == ExtractColumn(ColumnDefs(elts)[i])
    decreases |elts|
  {
    if elts != [] { ToTableKeepsColumnDefs(elts[..|elts| - 1]); }
  }

  // ----- lookups by name -----

  function TableNames(ts: seq<TableV>): (names: seq<string>)
    ensures |names| == |ts| && forall i :: 0 <= i < |ts| ==> names[i] == ts[i].name
    decreases |ts|
  {
    if ts == [] then [] else [ts[0].name] + TableNames(ts[1..])
  }

  /** The position of the first table called `name`, as found by a linear
      scan that stops at the first match. */
  function FirstTable(ts: seq<TableV>, name: string): (r: Option<nat>)
    ensures r.Some? ==> r.value < |ts| && ts[r.value].name == name &&
                        forall j :: 0 <= j < r.value ==> ts[j].name != name
    ensures r.None? <==> name !in TableNames(ts)
    decreases |ts|
  {
    if ts == [] then None
    else if ts[0].name == name then Some(0)
    else match FirstTable(ts[1..], name)
      case None => None
      case Some(i) => Some(i + 1)
  }

  /** The position of the first column called `name`. */
  function FirstColumn(cs: seq<ColumnV>, name: string): (r: Option<nat>)
    ensures r.Some? ==> r.value < |cs| && cs[r.value].name == name &&
                        forall j :: 0 <= j < r.value ==> cs[j].name != name
    ensures r.None? ==> forall j :: 0 <= j < |cs| ==> cs[j].name != name
    decreases |cs|
  {
    if cs == [] then None
    else if cs[0].name == name then Some(0)
    else match FirstColumn(cs[1..], name)
      case None => None
      case Some(i) => Some(i + 1)
  }

  /** The names of a column list, position by position. */
  function ColumnNames(cs: seq<ColumnV>): (names: seq<string>)
    ensures |names| == |cs| && forall i :: 0 <= i < |cs| ==> names[i] == cs[i].name
  {
    seq(|cs|, i requires 0 <= i < |cs| => cs[i].name)
  }

  /** A column of the name is found exactly when the name is among the
      column names. */
  lemma FirstColumnFound(cs: seq<ColumnV>, name: string)
    ensures FirstColumn(cs, name).Some? <==> name in ColumnNames(cs)
  {
    var names := ColumnNames(cs);
    if name in names {
      var i :| 0 <= i < |names| && names[i] == name;
      assert cs[i].name == name;
    }
  }

  /** Column lists with the same names, column by column. */
  ghost predicate SameNames(a: seq<ColumnV>, b: seq<ColumnV>)
  {
    |a| == |b| && forall k :: 0 <= k < |a| ==> a[k].name == b[k].name
  }

  lemma {:induction false} FirstColumnSameNames(a: seq<ColumnV>, b: seq<ColumnV>, name: string)
    requires SameNames(a, b)
    ensures FirstColumn(a, name) == FirstColumn(b, name)
    decreases |a|
  {
    if a != [] { FirstColumnSameNames(a[1..], b[1..], name); }
  }

  // ----- ALTER TABLE ... ADD CONSTRAINT, by column name -----

  /** Append `tag` to the first column called `name`; no column: no change. */
  function TagColumn(cs: seq<ColumnV>, name: string, tag: string): seq<ColumnV>
  {
    match FirstColumn(cs, name)
    case None => cs
    case Some(k) => cs[k := cs[k].(constraints := cs[k].constraints + [tag])]
  }

  /** Append `ref` to the first column called `name`; no column: no change. */
  function RefColumn(cs: seq<ColumnV>, name: string, ref: RefV): seq<ColumnV>
  {
    match FirstColumn(cs, name)
    case None => cs
    case Some(k) => cs[k := cs[k].(refs := cs[k].refs + [ref])]
  }

  /** A PRIMARY KEY constraint over the key names `keys`. */
  function AddPrimaryKeys(cs: seq<ColumnV>, keys: seq<string>): seq<ColumnV>
    decreases |keys|
  {
    if keys == [] then cs else TagColumn(AddPrimaryKeys(cs, keys[..|keys| - 1]), keys[|keys| - 1], Primary)
  }

  /** One reference appended, once per name of `names`, to the first column
      of that name. */
  function AddForeignKeys(cs: seq<ColumnV>, names: seq<string>, ref: RefV): seq<ColumnV>
    decreases |names|
  {
    if names == [] then cs else RefColumn(AddForeignKeys(cs, names[..|names| - 1], ref), names[|names| - 1], ref)
  }

  lemma AddPrimaryKeysSnoc(cs: seq<ColumnV>, keys: seq<string>, s: string)
    ensures AddPrimaryKeys(cs, keys + [s]) == TagColumn(AddPrimaryKeys(cs, keys), s, Primary)
  {
    assert (keys + [s])[..|keys|] == keys;
  }

  lemma AddForeignKeysSnoc(cs: seq<ColumnV>, names: seq<string>, s: string, ref: RefV)
    ensures AddForeignKeys(cs, names + [s], ref) == RefColumn(AddForeignKeys(cs, names, ref), s, ref)
  {
    assert (names + [s])[..|names|] == names;
  }

  function Repeat<T>(x: T, n: nat): (r: seq<T>)
    ensures |r| == n && forall i :: 0 <= i < n ==> r[i] == x
  {
    if n == 0 then [] else Repeat(x, n - 1) + [x]
  }

  /** How many of `names` find column `k` first. */
  function Hits(cs: seq<ColumnV>, names: seq<string>, k: nat): nat
    decreases |names|
  {
    if names == [] then 0
    else Hits(cs, names[..|names| - 1], k) + (if FirstColumn(cs, names[|names| - 1]) == Some(k) then 1 else 0)
  }

  /** One more key name: the column it finds gains one more "primary". */
  lemma TagStep(c: ColumnV, p: ColumnV, n: nat, hit: bool)
    requires p == c.(constraints := c.constraints + Repeat(Primary, n))
    ensures (if hit then p.(constraints := p.constraints + [Primary]) else p)
         == c.(constraints := c.constraints + Repeat(Primary, n + if hit then 1 else 0))
  {
    if hit { assert Repeat(Primary, n + 1) == Repeat(Primary, n) + [Primary]; }
  }

  /** One more referencing name: the column it finds gains one more `ref`. */
  lemma RefStep(c: ColumnV, p: ColumnV, ref: RefV, n: nat, hit: bool)
    requires p == c.(refs := c.refs + Repeat(ref, n))
    ensures (if hit then p.(refs := p.refs + [ref]) else p)
         == c.(refs := c.refs + Repeat(ref, n + if hit then 1 else 0))
  {
    if hit { assert Repeat(ref, n + 1) == Repeat(ref, n) + [ref]; }
  }

  /** A PRIMARY KEY constraint gives every column "primary" once per key
      name that finds it, drops names that find no column, and changes
      nothing else: no column is added, removed, renamed or retyped. */
  lemma {:induction false} PrimaryKeysEffect(cs: seq<ColumnV>, keys: seq<string>)
    ensures var r := AddPrimaryKeys(cs, keys);
      |r| == |cs| &&
      forall k :: 0 <= k < |cs| ==>
        r[k] == cs[k].(constraints := cs[k].constraints + Repeat(Primary, Hits(cs, keys, k)))
    decreases |keys|
  {
    if keys != [] {
      var init := keys[..|keys| - 1];
      var s := keys[|keys| - 1];
      var prev := AddPrimaryKeys(cs, init);
      PrimaryKeysEffect(cs, init);
      assert SameNames(prev, cs);
      FirstColumnSameNames(prev, cs, s);
      forall k | 0 <= k < |cs|
        ensures AddPrimaryKeys(cs, keys)[k] == cs[k].(constraints := cs[k].constraints + Repeat(Primary, Hits(cs, keys, k)))
      {
        TagStep(cs[k], prev[k], Hits(cs, init, k), FirstColumn(cs, s) == Some(k));
      }
    }
  }

  /** The reference of a FOREIGN KEY constraint is appended, without any
      dedup, once per name that finds a column, to that column. Names that
      find no column are dropped, and nothing else changes. */
  lemma {:induction false} ForeignKeysEffect(cs: seq<ColumnV>, names: seq<string>, ref: RefV)
    ensures var r := AddForeignKeys(cs, names, ref);
      |r| == |cs| &&
      forall k :: 0 <= k < |cs| ==>
        r[k] == cs[k].(refs := cs[k].refs + Repeat(ref, Hits(cs, names, k)))
    decreases |names|
  {
    if names != [] {
      var init := names[..|names| - 1];
      var s := names[|names| - 1];
      var prev := AddForeignKeys(cs, init, ref);
      ForeignKeysEffect(cs, init, ref);
      assert SameNames(prev, cs);
      FirstColumnSameNames(prev, cs, s);
      forall k | 0 <= k < |cs|
        ensures AddForeignKeys(cs, names, ref)[k] == cs[k].(refs := cs[k].refs + Repeat(ref, Hits(cs, names, k)))
      {
        RefStep(cs[k], prev[k], ref, Hits(cs, init, k), FirstColumn(cs, s) == Some(k));
      }
    }
  }

  /** `n` is an ADD CONSTRAINT command whose constraint is of kind `t`. */
  predicate IsAddConstraint(n: Node, t: ConstrType)
  {
    n.AlterTableCmdNode? && n.alterTableCmd.subtype == AtAddConstraint &&
    n.alterTableCmd.def.ConstraintNode? && n.alterTableCmd.def.constraint.contype == t
  }

  /** `r` is `cs` with "primary" added to each column once per key that
      finds it, and nothing else changed. */
  ghost predicate TaggedBy(cs: seq<ColumnV>, r: seq<ColumnV>, keys: seq<string>)
  {
    |r| == |cs| &&
    forall j :: 0 <= j < |cs| ==> r[j] == cs[j].(constraints := cs[j].constraints + Repeat(Primary, Hits(cs, keys, j)))
  }

  /** `r` is `cs` with `ref` added to each column once per name that finds
      it, and nothing else changed. */
  ghost predicate ReferencedBy(cs: seq<ColumnV>, r: seq<ColumnV>, names: seq<string>, ref: RefV)
  {
    |r| == |cs| &&
    forall j :: 0 <= j < |cs| ==> r[j] == cs[j].(refs := cs[j].refs + Repeat(ref, Hits(cs, names, j)))
  }

  // ----- the statement loop -----

  /** What one ALTER TABLE command does to the columns of its table; the
      two copies of the program differ only here. */
  type ColumnsEffect = (seq<ColumnV>, Node) -> seq<ColumnV>

  function ApplyCommands(cs: seq<ColumnV>, cmds: seq<Node>, effect: ColumnsEffect): seq<ColumnV>
    decreases |cmds|
  {
    if cmds == [] then cs else effect(ApplyCommands(cs, cmds[..|cmds| - 1], effect), cmds[|cmds| - 1])
  }

  /** An ALTER TABLE acts on the first table with its relation name, or
      fails when no table has that name. */
  function AlterWith(ts: seq<TableV>, stmt: AlterTableStmt, effect: ColumnsEffect): Result<seq<TableV>, SchemaError>
  {
    match FirstTable(ts, stmt.relation.relname)
    case None => Err(UnknownTable)
    case Some(i) => Ok(ts[i := ts[i].(columns := ApplyCommands(ts[i].columns, stmt.cmds, effect))])
  }

  lemma AlterWithAt(ts: seq<TableV>, stmt: AlterTableStmt, effect: ColumnsEffect, i: nat)
    requires FirstTable(ts, stmt.relation.relname) == Some(i)
    ensures i < |ts|
    ensures AlterWith(ts, stmt, effect) == Ok(ts[i := ts[i].(columns := ApplyCommands(ts[i].columns, stmt.cmds, effect))])
  {
  }

  function BuildStep(ts: seq<TableV>, n: Node, effect: ColumnsEffect): Result<seq<TableV>, SchemaError>
  {
    match n
    case CreateStmtNode(cs) => Ok(ts + [ToTableV(cs)])
    case AlterTableStmtNode(a) => AlterWith(ts, a, effect)
    case _ => Ok(ts)
  }

  /** The schema built from statements in order; the first failing ALTER
      ends the build. */
  function BuildWith(stmts: seq<Node>, effect: ColumnsEffect): Result<seq<TableV>, SchemaError>
    decreases |stmts|
  {
    if stmts == [] then Ok([])
    else match BuildWith(stmts[..|stmts| - 1], effect)
      case Err(e) => Err(e)
      case Ok(ts) => BuildStep(ts, stmts[|stmts| - 1], effect)
  }

  /** The build of one more statement. */
  lemma BuildWithSnoc(stmts: seq<Node>, i: nat, effect: ColumnsEffect)
    requires i < |stmts|
    ensures BuildWith(stmts[..i + 1], effect) ==
      match BuildWith(stmts[..i], effect)
      case Err(e) => Err(e)
      case Ok(ts) => BuildStep(ts, stmts[i], effect)
  {
    assert stmts[..i + 1][..i] == stmts[..i];
  }

  /** The relation names of the CREATE TABLE statements, in order. */
  function CreateNames(stmts: seq<Node>): seq<string>
    decreases |stmts|
  {
    if stmts == [] then []
    else
      CreateNames(stmts[..|stmts| - 1]) +
      (match stmts[|stmts| - 1] case CreateStmtNode(cs) => [cs.relation.relname] case _ => [])
  }

  /** The tables of the CREATE TABLE statements, in order. */
  function CreatedTables(stmts: seq<Node>): seq<TableV>
    decreases |stmts|
  {
    if stmts == [] then []
    else
      CreatedTables(stmts[..|stmts| - 1]) +
      (match stmts[|stmts| - 1] case CreateStmtNode(cs) => [ToTableV(cs)] case _ => [])
  }

  /** A failed build stays failed, whatever follows. */
  lemma {:induction false} BuildErrSticky(stmts: seq<Node>, i: nat, effect: ColumnsEffect)
    requires i <= |stmts| && BuildWith(stmts[..i], effect).Err?
    ensures BuildWith(stmts, effect) == BuildWith(stmts[..i], effect)
    decreases |stmts| - i
  {
    if i < |stmts| {
      assert stmts[..i + 1][..i] == stmts[..i];
      BuildErrSticky(stmts, i + 1, effect);
    } else {
      assert stmts[..i] == stmts;
    }
  }

  /** One table per CREATE TABLE, in statement order, under the statement's
      relation name: ALTER statements never add, drop or rename a table. */
  lemma {:induction false} BuildTableNames(stmts: seq<Node>, effect: ColumnsEffect)
    ensures BuildWith(stmts, effect).Ok? ==> TableNames(BuildWith(stmts, effect).value) == CreateNames(stmts)
    decreases |stmts|
  {
    if stmts != [] {
      var init := stmts[..|stmts| - 1];
      BuildTableNames(init, effect);
      if BuildWith(init, effect).Ok? {
        var ts := BuildWith(init, effect).value;
        match stmts[|stmts| - 1]
        case CreateStmtNode(cs) =>
          assert TableNames(ts + [ToTableV(cs)]) == TableNames(ts) + [cs.relation.relname];
        case AlterTableStmtNode(a) =>
          if BuildWith(stmts, effect).Ok? {
            var i := FirstTable(ts, a.relation.relname).value;
            var ts' := ts[i := ts[i].(columns := ApplyCommands(ts[i].columns, a.cmds, effect))];
            assert TableNames(ts') == TableNames(ts);
          }
        case _ =>
      }
    }
  }

  /** Statement order is load-bearing: the build fails exactly when some
      ALTER TABLE names a relation that no earlier CREATE TABLE created. */
  lemma {:induction false} BuildFailsIffUnknownTable(stmts: seq<Node>, effect: ColumnsEffect)
    ensures BuildWith(stmts, effect).Err? <==>
      exists i :: 0 <= i < |stmts| && stmts[i].AlterTableStmtNode? &&
        stmts[i].alterTableStmt.relation.relname !in CreateNames(stmts[..i])
    ensures BuildWith(stmts, effect).Err? ==> BuildWith(stmts, effect).error == UnknownTable
    decreases |stmts|
  {
    if stmts != [] {
      var n := |stmts| - 1;
      var init := stmts[..n];
      BuildFailsIffUnknownTable(init, effect);
      BuildTableNames(init, effect);
      forall i | 0 <= i < n ensures stmts[..i] == init[..i] && stmts[i] == init[i] { }
      assert stmts[..n] == init;
    }
  }

  /** With no ALTER TABLE, the schema is the CREATE TABLE statements' tables
      in statement order, other statements being ignored. */
  lemma {:induction false} BuildCreatesOnly(stmts: seq<Node>, effect: ColumnsEffect)
    requires forall i :: 0 <= i < |stmts| ==> !stmts[i].AlterTableStmtNode?
    ensures BuildWith(stmts, effect) == Ok(CreatedTables(stmts))
    decreases |stmts|
  {
    if stmts != [] {
      var init := stmts[..|stmts| - 1];
      assert forall i :: 0 <= i < |init| ==> init[i] == stmts[i];
      BuildCreatesOnly(init, effect);
      var ts := CreatedTables(init);
      match stmts[|stmts| - 1]
      case CreateStmtNode(cs) =>
      case AlterTableStmtNode(a) => assert false;
      case _ => assert ts + [] == ts;
    }
  }
}
