/** The older copy of the program, main.go. Column extraction is the same
    as in the current program; the differences are elsewhere:
    - ALTER TABLE handles only foreign keys, and it looks the local column
      up by each primary-key attribute rather than by the foreign-key ones;
    - one reference object per foreign key is appended to every column it
      reaches and rewritten after each append;
    - the diagram rows show the raw type, and the edges the raw
      reference. */
module LegacyMain {
  import opened PgQuery
  import opened Results
  import opened SchemaModel
  import opened Diagram
  import opened Footprint
  import Sql2Diagram

  /** A foreign reference object; the ALTER TABLE handler changes its
      column after the object has been appended. */
  class ForeignReference {
    var table: string
    var column: string

    constructor (table: string)
      ensures this.table == table && column == ""
    {
      this.table := table;
      column := "";
    }

    ghost function Value(): RefV
      reads this
    {
      RefV(table, column)
    }
  }

  /** What a list of reference objects currently reads. */
  ghost function RefValues(rs: seq<ForeignReference>): (vs: seq<RefV>)
    reads rs
    ensures |vs| == |rs| && forall i :: 0 <= i < |rs| ==> vs[i] == rs[i].Value()
  {
    seq(|rs|, i requires 0 <= i < |rs| reads rs => rs[i].Value())
  }

  /** A list ending in one object several times reads as that object's
      value, as often. */
  lemma RefValuesShared(rs: seq<ForeignReference>, fr: ForeignReference, n: nat)
    ensures RefValues(rs + Repeat(fr, n)) == RefValues(rs) + Repeat(fr.Value(), n)
  {
    var us := rs + Repeat(fr, n);
    assert forall i :: |rs| <= i < |us| ==> us[i] == fr;
  }

  class Column {
    var name: string
    var sqlType: string
    var constraints: seq<string>
    var foreignKeyReferences: seq<ForeignReference>
    var length: int

    constructor (name: string)
      ensures Value() == ColumnV(name, "", [], [], 0)
    {
      this.name := name;
      sqlType := "";
      constraints := [];
      foreignKeyReferences := [];
      length := 0;
    }

    /** The column as it reads now, through its reference objects. */
    ghost function Value(): ColumnV
      reads this, foreignKeyReferences
    {
      ColumnV(name, sqlType, constraints, RefValues(foreignKeyReferences), length)
    }

    /** The NOT NULL case of the constraint switch: the tag is added only
        when the column does not have it yet. */
    method AddNotNull()
      modifies this
      ensures Value() == if NotNull in old(constraints) then old(Value())
                         else old(Value()).(constraints := old(constraints) + [NotNull])
    {
      var alreadyExists := false;
      for i := 0 to |constraints|
        invariant alreadyExists <==> NotNull in constraints[..i]
      {
        if constraints[i] == NotNull {
          alreadyExists := true;
        }
      }
      assert constraints[..|constraints|] == constraints;
      if !alreadyExists {
        constraints := constraints + [NotNull];
      }
    }

    /** The FOREIGN KEY case of the constraint switch: a new reference
        object, rewritten once per String primary-key attribute, appended
        at the end unless a (table, attribute) pair is already a
        reference of the column. */
    method AddInlineForeignKey(k: Constraint)
      modifies this
      ensures Value() == ForeignStep(old(Value()), k.pktable.relname, StringVals(k.pkAttrs))
    {
      var foreignReference := new ForeignReference(k.pktable.relname);
      var found := RewriteReference(foreignReference, k.pkAttrs);
      if !found {
        Attach(foreignReference);
      }
    }

    /** The primary-key loop of the FOREIGN KEY case: the reference object
        takes each String attribute in turn, and the result says whether
        any (table, attribute) pair is already a reference of the column. */
    method RewriteReference(fr: ForeignReference, pks: seq<Node>) returns (found: bool)
      requires fr !in foreignKeyReferences && fr.column == ""
      modifies fr`column
      ensures Value() == old(Value())
      ensures fr.Value() == RefV(fr.table, LastOr(StringVals(pks), ""))
      ensures found <==> exists p :: p in StringVals(pks) && RefV(fr.table, p) in Value().refs
    {
      found := false;
      for i := 0 to |pks|
        invariant Value() == old(Value())
        invariant fr.Value() == RefV(fr.table, LastOr(StringVals(pks[..i]), ""))
        invariant found <==> exists p :: p in StringVals(pks[..i]) && RefV(fr.table, p) in Value().refs
      {
        StringValsSnoc(pks, i);
        match pks[i] {
          case StringNode(s) =>
            var hit := HasReference(fr.table, s);
            found := found || hit;
            fr.column := s;
          case _ =>
        }
      }
      assert pks[..|pks|] == pks;
    }

    /** The scan of the existing references for a (table, column) pair. */
    method HasReference(table: string, column: string) returns (found: bool)
      ensures found <==> RefV(table, column) in Value().refs
    {
      found := false;
      var refs := foreignKeyReferences;
      for m := 0 to |refs|
        invariant found <==> RefV(table, column) in RefValues(refs)[..m]
      {
        if refs[m].table == table && refs[m].column == column {
          found := true;
        }
      }
      assert RefValues(refs)[..|refs|] == RefValues(refs);
    }

    /** The append of a reference object at the end. */
    method Attach(fr: ForeignReference)
      modifies this`foreignKeyReferences
      ensures Value() == old(Value()).(refs := old(Value()).refs + [fr.Value()])
    {
      ghost var before := foreignKeyReferences;
      foreignKeyReferences := foreignKeyReferences + [fr];
      assert RefValues(before + [fr]) == RefValues(before) + [fr.Value()];
    }

    /** One String name of the type: it becomes the type, and the last
        integer type modifier, if any, becomes the length. */
    method SetType(s: string, mods: seq<Node>)
      modifies this
      ensures Value() == old(Value()).(sqlType := s,
        length := match LastInt(mods) case Some(v) => v case None => old(length))
    {
      ghost var prev := Value();
      sqlType := s;
      for j := 0 to |mods|
        invariant Value() ==
          prev.(sqlType := s, length := match LastInt(mods[..j]) case Some(v) => v case None => prev.length)
      {
        assert mods[..j + 1][..j] == mods[..j];
        match mods[j] {
          case AConstNode(AConst(IntegerVal(v))) =>
            length := v as int;
          case _ =>
        }
      }
      assert mods[..|mods|] == mods;
    }

    /** The constraint loop of a column definition. */
    method AddConstraints(cons: seq<Node>)
      modifies this
      ensures Value() == ApplyConstraints(old(Value()), cons)
    {
      ghost var mid := Value();
      for j := 0 to |cons|
        invariant Value() == ApplyConstraints(mid, cons[..j])
      {
        assert cons[..j + 1][..j] == cons[..j];
        match cons[j] {
          case ConstraintNode(k) =>
            match k.contype {
              case ConstrPrimary =>
                constraints := constraints + [Primary];
              case ConstrForeign =>
                AddInlineForeignKey(k);
              case ConstrNotNull =>
                AddNotNull();
              case ConstrOther =>
            }
          case _ =>
        }
      }
      assert cons[..|cons|] == cons;
    }
  }

  /** The reference objects of a list of columns. */
  ghost function RefsOf(cs: seq<Column>): set<ForeignReference>
    reads cs
  {
    set j, r | 0 <= j < |cs| && r in cs[j].foreignKeyReferences :: r
  }

  /** The values of a list of columns, position by position. */
  ghost function ColumnValues(cs: seq<Column>): (vs: seq<ColumnV>)
    reads cs, RefsOf(cs)
    ensures |vs| == |cs| && forall i :: 0 <= i < |cs| ==> vs[i] == cs[i].Value()
  {
    seq(|cs|, i requires 0 <= i < |cs| reads cs, RefsOf(cs) =>
      assert forall r :: r in cs[i].foreignKeyReferences ==> r in RefsOf(cs);
      cs[i].Value())
  }

  /** The reference lists of a list of columns. */
  ghost function RefLists(cs: seq<Column>): (ls: seq<seq<ForeignReference>>)
    reads cs
    ensures |ls| == |cs| && forall i :: 0 <= i < |cs| ==> ls[i] == cs[i].foreignKeyReferences
  {
    seq(|cs|, i requires 0 <= i < |cs| reads cs => cs[i].foreignKeyReferences)
  }

  /** Every String primary-key attribute of a foreign key names a column:
      the legacy ALTER TABLE handler dereferences the column it finds for
      each of them. */
  predicate PkColumnsExist(cs: seq<ColumnV>, pks: seq<Node>)
  {
    forall i :: 0 <= i < |pks| && pks[i].StringNode? ==> pks[i].sval in ColumnNames(cs)
  }

  /** The fields of a column, with its reference objects as objects. */
  datatype ColumnFields = ColumnFields(name: string, sqlType: string, constraints: seq<string>,
                                       objs: seq<ForeignReference>, length: int)

  ghost function Fields(cs: seq<Column>): (fs: seq<ColumnFields>)
    reads cs
    ensures |fs| == |cs| && forall i :: 0 <= i < |cs| ==>
      fs[i] == ColumnFields(cs[i].name, cs[i].sqlType, cs[i].constraints, cs[i].foreignKeyReferences, cs[i].length)
  {
    seq(|cs|, i requires 0 <= i < |cs| reads cs =>
      ColumnFields(cs[i].name, cs[i].sqlType, cs[i].constraints, cs[i].foreignKeyReferences, cs[i].length))
  }

  /** Column `j` of `fs` is column `j` of `cv0`, with the objects `objs0[j]`
      followed by `fr` once per name of `names` that finds it. */
  ghost predicate SharedFields(fs: seq<ColumnFields>, cv0: seq<ColumnV>, objs0: seq<seq<ForeignReference>>,
                               fr: ForeignReference, names: seq<string>)
  {
    |fs| == |cv0| == |objs0| &&
    forall j :: 0 <= j < |fs| ==>
      fs[j] == ColumnFields(cv0[j].name, cv0[j].sqlType, cv0[j].constraints,
                            objs0[j] + Repeat(fr, Hits(cv0, names, j)), cv0[j].length)
  }

  /** Each list of `objs0` reads as the references of the same column of
      `cv0`. */
  ghost predicate ObjsRead(cv0: seq<ColumnV>, objs0: seq<seq<ForeignReference>>)
    reads AllColumns(objs0)
  {
    |objs0| == |cv0| &&
    forall j :: 0 <= j < |objs0| ==>
      assert forall r :: r in objs0[j] ==> r in AllColumns(objs0);
      RefValues(objs0[j]) == cv0[j].refs
  }

  /** Before the first name, the columns are as they were, and a new
      object is none of theirs. */
  lemma SharedStart(cs: seq<Column>, fr: ForeignReference)
    requires forall c :: c in cs ==> forall r :: r in c.foreignKeyReferences ==> r != fr
    ensures SharedFields(Fields(cs), ColumnValues(cs), RefLists(cs), fr, [])
    ensures ObjsRead(ColumnValues(cs), RefLists(cs)) && fr !in AllColumns(RefLists(cs))
  {
    var objs := RefLists(cs);
    assert forall j :: 0 <= j < |cs| ==> objs[j] + Repeat(fr, 0) == objs[j];
  }

  /** One more name: the column it finds holds one more copy of `fr`. */
  lemma SharedFieldsSnoc(fs: seq<ColumnFields>, cv0: seq<ColumnV>, objs0: seq<seq<ForeignReference>>,
                         fr: ForeignReference, names: seq<string>, s: string, j0: nat)
    requires SharedFields(fs, cv0, objs0, fr, names) && FirstColumn(cv0, s) == Some(j0)
    ensures SharedFields(fs[j0 := fs[j0].(objs := fs[j0].objs + [fr])], cv0, objs0, fr, names + [s])
  {
    assert (names + [s])[..|names|] == names;
    var h := Hits(cv0, names, j0);
    assert Repeat(fr, h + 1) == Repeat(fr, h) + [fr];
  }

  class Table {
    var name: string
    var columns: seq<Column>

    constructor (name: string)
      ensures this.name == name && columns == []
    {
      this.name := name;
      columns := [];
    }

    ghost function Value(): TableV
      reads this, columns, RefsOf(columns)
    {
      TableV(name, ColumnValues(columns))
    }

    /** The append of a column object the table does not hold yet. */
    method AppendColumn(col: Column)
      requires ColumnsDistinct(columns) && col !in columns
      modifies this`columns
      ensures columns == old(columns) + [col] && ColumnsDistinct(columns)
      ensures ColumnValues(columns) == old(ColumnValues(columns)) + [old(col.Value())]
    {
      ghost var before := ColumnValues(columns);
      ghost var cv := col.Value();
      columns := columns + [col];
      assert ColumnValues(columns) == before + [cv];
    }

    /** One column definition of the statement: its column object is
        built and appended. */
    method AddColumnDef(d: ColumnDef)
      requires ColumnsDistinct(columns)
      modifies this`columns
      ensures ColumnsDistinct(columns) && ColumnValues(columns) == old(ColumnValues(columns)) + [ExtractColumn(d)]
      ensures forall c :: c in columns ==> c in old(columns) || fresh(c)
    {
      ghost var cv := ColumnValues(columns);
      ghost var rs := RefsOf(columns);
      var col := GenerateColumnProperties(d);
      assert RefsOf(columns) == rs;
      assert ColumnValues(columns) == cv;
      AppendColumn(col);
    }

    /** The linear scan for the first column called `name`. */
    method FindColumn(name: string) returns (col: Column?, ghost k: nat)
      ensures col == null ==> forall j :: 0 <= j < |columns| ==> columns[j].name != name
      ensures col != null ==> k < |columns| && col == columns[k] && columns[k].name == name &&
                              forall j :: 0 <= j < k ==> columns[j].name != name
    {
      for i := 0 to |columns|
        invariant forall j :: 0 <= j < i ==> columns[j].name != name
      {
        if columns[i].name == name {
          return columns[i], i;
        }
      }
      return null, 0;
    }

    /** While a foreign key is being added: column `j` holds the reference
        objects it had, then the shared object `fr` once per name so far
        that finds it; nothing else about the column has changed. */
    ghost predicate Shared(cv0: seq<ColumnV>, objs0: seq<seq<ForeignReference>>, fr: ForeignReference, names: seq<string>)
      reads this, columns
    {
      SharedFields(Fields(columns), cv0, objs0, fr, names)
    }

    /** The shared object reads the same from every column that holds it. */
    lemma SharedValues(cv0: seq<ColumnV>, objs0: seq<seq<ForeignReference>>, fr: ForeignReference, names: seq<string>)
      requires Shared(cv0, objs0, fr, names) && ObjsRead(cv0, objs0)
      ensures ColumnValues(columns) == AddForeignKeys(cv0, names, fr.Value())
    {
      ForeignKeysEffect(cv0, names, fr.Value());
      forall j | 0 <= j < |columns|
        ensures ColumnValues(columns)[j] == AddForeignKeys(cv0, names, fr.Value())[j]
      {
        RefValuesShared(objs0[j], fr, Hits(cv0, names, j));
      }
    }

    /** ADD CONSTRAINT ... FOREIGN KEY, as the legacy handler does it: one
        new reference object; for each String primary-key attribute, the
        column of that name is looked up, the object's column is set to the
        attribute, and the object is appended to that column. Afterwards
        every column reached reads the last attribute. */
    method AddForeignKey(k: Constraint)
      requires ColumnsDistinct(columns) && PkColumnsExist(ColumnValues(columns), k.pkAttrs)
      modifies columns
      ensures Value().columns ==
        AddForeignKeys(old(Value()).columns, StringVals(k.pkAttrs), RefV(k.pktable.relname, LastOr(StringVals(k.pkAttrs), "")))
    {
      ghost var cv0 := ColumnValues(columns);
      ghost var objs0 := RefLists(columns);
      var foreignReference := new ForeignReference(k.pktable.relname);
      SharedStart(columns, foreignReference);
      ShareAll(cv0, objs0, foreignReference, k.pkAttrs);
      SharedValues(cv0, objs0, foreignReference, StringVals(k.pkAttrs));
    }

    /** The loop over the primary-key attributes of a foreign key. */
    method ShareAll(ghost cv0: seq<ColumnV>, ghost objs0: seq<seq<ForeignReference>>,
                    fr: ForeignReference, pks: seq<Node>)
      requires ColumnsDistinct(columns) && PkColumnsExist(cv0, pks)
      requires Shared(cv0, objs0, fr, []) && fr.Value() == RefV(fr.table, "")
      requires ObjsRead(cv0, objs0) && fr !in AllColumns(objs0)
      modifies columns, fr
      ensures Shared(cv0, objs0, fr, StringVals(pks)) && ObjsRead(cv0, objs0)
      ensures fr.Value() == RefV(old(fr.table), LastOr(StringVals(pks), ""))
    {
      for i := 0 to |pks|
        invariant fr.Value() == RefV(old(fr.table), LastOr(StringVals(pks[..i]), ""))
        invariant Shared(cv0, objs0, fr, StringVals(pks[..i]))
      {
        StringValsSnoc(pks, i);
        match pks[i] {
          case StringNode(s) =>
            FirstColumnFound(cv0, s);
            AppendShared(cv0, objs0, fr, StringVals(pks[..i]), s);
          case _ =>
        }
      }
      assert pks[..|pks|] == pks;
    }

    /** One String primary-key attribute: the object is renamed and
        appended to the column of that name. */
    method AppendShared(ghost cv0: seq<ColumnV>, ghost objs0: seq<seq<ForeignReference>>,
                        fr: ForeignReference, ghost names: seq<string>, s: string)
      requires ColumnsDistinct(columns) && FirstColumn(cv0, s).Some?
      requires Shared(cv0, objs0, fr, names)
      modifies columns, fr
      ensures Shared(cv0, objs0, fr, names + [s])
      ensures fr.Value() == RefV(old(fr.table), s)
    {
      var column, j0 := FindColumn(s);
      assert FirstColumn(cv0, s) == Some(j0);
      fr.column := s;
      ghost var fs := Fields(columns);
      AttachAt(column, j0, fr);
      SharedFieldsSnoc(fs, cv0, objs0, fr, names, s, j0);
    }

    /** The append of a reference object to column `j0`, and to no other. */
    method AttachAt(column: Column, ghost j0: nat, fr: ForeignReference)
      requires ColumnsDistinct(columns) && j0 < |columns| && column == columns[j0]
      modifies column`foreignKeyReferences
      ensures Fields(columns) == old(Fields(columns))[j0 := old(Fields(columns))[j0].(objs := old(Fields(columns))[j0].objs + [fr])]
    {
      column.foreignKeyReferences := column.foreignKeyReferences + [fr];
    }

    /** One command of an ALTER TABLE statement: only ADD CONSTRAINT with a
        FOREIGN KEY acts. */
    method ApplyCommand(n: Node)
      requires ColumnsDistinct(columns) && CommandSafe(ColumnValues(columns), n)
      modifies columns
      ensures Value() == old(Value()).(columns := LegacyEffect(old(Value()).columns, n))
    {
      match n {
        case AlterTableCmdNode(cmd) =>
          if cmd.subtype == AtAddConstraint {
            match cmd.def {
              case ConstraintNode(k) =>
                if k.contype == ConstrForeign {
                  AddForeignKey(k);
                }
              case _ =>
            }
          }
        case _ =>
      }
    }

    /** The commands of an ALTER TABLE statement, in order. */
    method ApplyCommands(cmds: seq<Node>)
      requires ColumnsDistinct(columns) && CommandsSafe(ColumnValues(columns), cmds)
      modifies columns
      ensures Value() == old(Value()).(columns := SchemaModel.ApplyCommands(old(Value()).columns, cmds, LegacyEffect))
    {
      ghost var v0 := Value();
      for c := 0 to |cmds|
        invariant Value() == v0.(columns := SchemaModel.ApplyCommands(v0.columns, cmds[..c], LegacyEffect))
      {
        assert cmds[..c + 1][..c] == cmds[..c];
        LegacyCommandsKeepNames(v0.columns, cmds[..c]);
        CommandSafeSameNames(v0.columns, ColumnValues(columns), cmds[c]);
        ApplyCommand(cmds[c]);
      }
      assert cmds[..|cmds|] == cmds;
    }
  }

  // ----- what the legacy ALTER TABLE handler does, on values -----

  /** One ALTER TABLE command of the legacy handler: only ADD CONSTRAINT
      with a FOREIGN KEY acts, and it reaches the columns named by the
      PRIMARY-KEY attributes, all with the reference to the last one. */
  function LegacyEffect(cs: seq<ColumnV>, n: Node): seq<ColumnV>
  {
    match n
    case AlterTableCmdNode(cmd) =>
      if cmd.subtype != AtAddConstraint then cs
      else
        (match cmd.def
         case ConstraintNode(k) =>
           if k.contype == ConstrForeign then
             var pks := StringVals(k.pkAttrs);
             AddForeignKeys(cs, pks, RefV(k.pktable.relname, LastOr(pks, "")))
           else cs
         case _ => cs)
    case _ => cs
  }

  /** A FOREIGN KEY command gives the columns its PkAttrs name, once per
      name, the reference to the referenced table and the last String
      PkAttr; any other command, PRIMARY KEY included, changes nothing. */
  lemma LegacyEffectCases(cs: seq<ColumnV>, n: Node)
    ensures var r := LegacyEffect(cs, n);
      if IsAddConstraint(n, ConstrForeign) then
        var k := n.alterTableCmd.def.constraint;
        var pks := StringVals(k.pkAttrs);
        ReferencedBy(cs, r, pks, RefV(k.pktable.relname, LastOr(pks, "")))
      else r == cs
  {
    if IsAddConstraint(n, ConstrForeign) {
      var k := n.alterTableCmd.def.constraint;
      var pks := StringVals(k.pkAttrs);
      ForeignKeysEffect(cs, pks, RefV(k.pktable.relname, LastOr(pks, "")));
    }
  }

  /** The commands on which the legacy handler does not dereference nil. */
  predicate CommandSafe(cs: seq<ColumnV>, n: Node)
  {
    IsAddConstraint(n, ConstrForeign) ==> PkColumnsExist(cs, n.alterTableCmd.def.constraint.pkAttrs)
  }

  predicate CommandsSafe(cs: seq<ColumnV>, cmds: seq<Node>)
  {
    forall j :: 0 <= j < |cmds| ==> CommandSafe(cs, cmds[j])
  }

  lemma LegacyEffectKeepsNames(cs: seq<ColumnV>, n: Node)
    ensures SameNames(cs, LegacyEffect(cs, n))
  {
    match n
    case AlterTableCmdNode(cmd) =>
      if cmd.subtype == AtAddConstraint && cmd.def.ConstraintNode? {
        var k := cmd.def.constraint;
        var pks := StringVals(k.pkAttrs);
        ForeignKeysEffect(cs, pks, RefV(k.pktable.relname, LastOr(pks, "")));
      }
    case _ =>
  }

  lemma {:induction false} LegacyCommandsKeepNames(cs: seq<ColumnV>, cmds: seq<Node>)
    ensures SameNames(cs, SchemaModel.ApplyCommands(cs, cmds, LegacyEffect))
    decreases |cmds|
  {
    if cmds != [] {
      var prev := SchemaModel.ApplyCommands(cs, cmds[..|cmds| - 1], LegacyEffect);
      LegacyCommandsKeepNames(cs, cmds[..|cmds| - 1]);
      LegacyEffectKeepsNames(prev, cmds[|cmds| - 1]);
    }
  }

  lemma CommandSafeSameNames(a: seq<ColumnV>, b: seq<ColumnV>, n: Node)
    requires SameNames(a, b) && CommandSafe(a, n)
    ensures CommandSafe(b, n)
  {
    assert ColumnNames(a) == ColumnNames(b);
  }

  // ----- the schema: tables of columns of reference objects -----

  ghost function ColumnLists(ts: seq<Table>): (ls: seq<seq<Column>>)
    reads ts
    ensures |ls| == |ts| && forall j :: 0 <= j < |ts| ==> ls[j] == ts[j].columns
  {
    seq(|ts|, j requires 0 <= j < |ts| reads ts => ts[j].columns)
  }

  ghost function ColumnsOf(ts: seq<Table>): set<Column>
    reads ts
  {
    AllColumns(ColumnLists(ts))
  }

  /** The reference objects the columns of a table list hold. */
  ghost function RefsOfTables(ts: seq<Table>): set<ForeignReference>
    reads ts, ColumnsOf(ts)
  {
    set c, r | c in ColumnsOf(ts) && r in c.foreignKeyReferences :: r
  }

  lemma ColumnsOfTable(ts: seq<Table>, i: nat)
    requires i < |ts|
    ensures forall c :: c in ts[i].columns ==> c in ColumnsOf(ts)
  {
  }

  lemma ColumnsOfAppend(ts: seq<Table>, t: Table)
    ensures ColumnLists(ts + [t]) == ColumnLists(ts) + [t.columns]
    ensures ColumnsOf(ts + [t]) == ColumnsOf(ts) + set c | c in t.columns
  {
    assert ColumnLists(ts + [t]) == ColumnLists(ts) + [t.columns];
    AllColumnsAppend(ColumnLists(ts), t.columns);
  }

  /** No column object is shared between two places of a table list. */
  ghost predicate DisjointColumns(ts: seq<Table>)
    reads ts
  {
    NoSharedColumns(ColumnLists(ts))
  }

  lemma DisjointAppend(ts: seq<Table>, t: Table)
    requires DisjointColumns(ts) && ColumnsDistinct(t.columns)
    requires forall c :: c in t.columns ==> c !in ColumnsOf(ts)
    ensures DisjointColumns(ts + [t])
  {
    ColumnsOfAppend(ts, t);
    NoSharedAppend(ColumnLists(ts), t.columns);
  }

  ghost function TableValues(ts: seq<Table>): (vs: seq<TableV>)
    reads ts, ColumnsOf(ts), RefsOfTables(ts)
    ensures |vs| == |ts| && forall i :: 0 <= i < |ts| ==> vs[i] == ts[i].Value()
  {
    seq(|ts|, i requires 0 <= i < |ts| reads ts, ColumnsOf(ts), RefsOfTables(ts) =>
      assert forall c :: c in ts[i].columns ==> c in ColumnsOf(ts);
      assert RefsOf(ts[i].columns) <= RefsOfTables(ts);
      ts[i].Value())
  }

  class Schema {
    var tables: seq<Table>

    constructor ()
      ensures tables == []
    {
      tables := [];
    }

    ghost function Columns(): set<Column>
      reads this, tables
    {
      ColumnsOf(tables)
    }

    ghost function Refs(): set<ForeignReference>
      reads this, tables, Columns()
    {
      RefsOfTables(tables)
    }

    ghost predicate Valid()
      reads this, tables
    {
      DisjointColumns(tables)
    }

    ghost function Value(): seq<TableV>
      reads this, tables, Columns(), Refs()
    {
      TableValues(tables)
    }

    method AppendTable(t: Table)
      requires Valid() && ColumnsDistinct(t.columns)
      requires forall c :: c in t.columns ==> c !in Columns()
      modifies this
      ensures tables == old(tables) + [t] && Valid()
      ensures Value() == old(Value()) + [old(t.Value())]
      ensures Columns() == old(Columns()) + set c | c in t.columns
    {
      DisjointAppend(tables, t);
      ColumnsOfAppend(tables, t);
      ghost var before := Value();
      ghost var tv := t.Value();
      ghost var olds := tables;
      tables := tables + [t];
      assert forall j :: 0 <= j < |olds| ==> Value()[j] == olds[j].Value() == before[j];
      assert t.Value() == tv;
      assert Value()[|olds|] == tv;
      assert Value() == before + [tv];
    }

    /** The commands of an ALTER TABLE applied to the `i`-th table, which
        is the only one that changes. */
    method ApplyCommandsAt(ghost v: seq<TableV>, i: nat, cmds: seq<Node>)
      requires Valid() && i < |tables| && v == Value()
      requires CommandsSafe(v[i].columns, cmds)
      modifies Columns()
      ensures Value() == v[i := v[i].(columns := SchemaModel.ApplyCommands(v[i].columns, cmds, LegacyEffect))]
      ensures ColumnLists(tables) == old(ColumnLists(tables))
      ensures Valid() && Columns() == old(Columns())
    {
      var t := tables[i];
      assert ColumnsDistinct(t.columns);
      ColumnsOfTable(tables, i);
      t.ApplyCommands(cmds);
      forall j | 0 <= j < |tables| && j != i
        ensures tables[j].Value() == old(tables[j].Value())
      {
        assert forall l :: 0 <= l < |tables[j].columns| ==> tables[j].columns[l] !in t.columns;
      }
      assert Value() == v[i := t.Value()];
    }

    method FindTable(name: string) returns (t: Table?, i: nat)
      ensures Value() == old(Value())
      ensures match FirstTable(Value(), name)
        case None => t == null
        case Some(k) => i == k && k < |tables| && t == tables[k]
    {
      i := 0;
      while i < |tables|
        invariant i <= |tables|
        invariant forall j :: 0 <= j < i ==> tables[j].name != name
      {
        if tables[i].name == name {
          return tables[i], i;
        }
        i := i + 1;
      }
      assert forall j :: 0 <= j < |tables| ==> Value()[j].name != name;
      return null, 0;
    }
  }

  // ----- schema extraction -----

  /** The column of a column definition; the same loops as in the current
      program. */
  method GenerateColumnProperties(def: ColumnDef) returns (column: Column)
    ensures fresh(column) && column.Value() == ExtractColumn(def)
  {
    column := new Column(def.colname);
    ghost var c0 := column.Value();
    var names := def.typeName.names;
    for i := 0 to |names|
      invariant column.Value() == ApplyNames(c0, names[..i], def)
    {
      assert names[..i + 1][..i] == names[..i];
      match names[i] {
        case StringNode(s) =>
          column.SetType(s, def.typeName.typmods);
          column.AddConstraints(def.constraints);
        case _ =>
      }
    }
    assert names[..|names|] == names;
  }

  /** A CREATE TABLE statement's table: one fresh column per column
      definition, table constraints being skipped. */
  method ToTable(stmt: CreateStmt) returns (table: Table)
    ensures fresh(table) && table.Value() == ToTableV(stmt)
    ensures ColumnsDistinct(table.columns) && forall c :: c in table.columns ==> fresh(c)
  {
    table := new Table(stmt.relation.relname);
    var elts := stmt.tableElts;
    for i := 0 to |elts|
      invariant fresh(table) && table.name == stmt.relation.relname
      invariant ColumnsDistinct(table.columns) && forall c :: c in table.columns ==> fresh(c)
      invariant ColumnValues(table.columns) == TableColumns(elts[..i])
    {
      assert elts[..i + 1][..i] == elts[..i];
      match elts[i] {
        case ColumnDefNode(d) =>
          table.AddColumnDef(d);
        case _ =>
      }
    }
    assert elts[..|elts|] == elts;
  }

  function AlterSpec(ts: seq<TableV>, stmt: AlterTableStmt): Result<seq<TableV>, SchemaError>
  {
    AlterWith(ts, stmt, LegacyEffect)
  }

  function BuildSpec(stmts: seq<Node>): Result<seq<TableV>, SchemaError>
  {
    BuildWith(stmts, LegacyEffect)
  }

  /** The statements on which the legacy ALTER TABLE handler does not
      dereference nil, given the tables before it. */
  predicate StmtSafe(ts: seq<TableV>, n: Node)
  {
    n.AlterTableStmtNode? ==> AlterSafe(ts, n.alterTableStmt)
  }

  /** If the statement's table exists, its commands are safe on it. */
  predicate AlterSafe(ts: seq<TableV>, a: AlterTableStmt)
  {
    var found := FirstTable(ts, a.relation.relname);
    found.Some? ==> SafeAt(ts, found.value, a.cmds)
  }

  predicate SafeAt(ts: seq<TableV>, i: nat, cmds: seq<Node>)
  {
    i < |ts| && CommandsSafe(ts[i].columns, cmds)
  }

  /** Every statement of a script is safe on the schema built before it. */
  predicate BuildSafe(stmts: seq<Node>)
  {
    forall i :: 0 <= i < |stmts| ==>
      match BuildSpec(stmts[..i])
      case Ok(ts) => StmtSafe(ts, stmts[i])
      case Err(_) => true
  }

  method AlterTable(schema: Schema, stmt: AlterTableStmt) returns (r: Outcome<SchemaError>)
    requires schema.Valid() && StmtSafe(schema.Value(), AlterTableStmtNode(stmt))
    modifies schema.Columns()
    ensures match AlterSpec(old(schema.Value()), stmt)
      case Ok(ts) => r == Pass && schema.Value() == ts
      case Err(e) => r == Fail(e) && schema.Value() == old(schema.Value())
    ensures schema.tables == old(schema.tables) && schema.Valid()
    ensures schema.Columns() == old(schema.Columns())
  {
    ghost var v0 := schema.Value();
    var sourceTable, i := schema.FindTable(stmt.relation.relname);
    if sourceTable == null {
      return Fail(UnknownTable);
    }
    AlterSpecAt(v0, stmt, i);
    StmtSafeAt(v0, stmt, i);
    schema.ApplyCommandsAt(v0, i, stmt.cmds);
    return Pass;
  }

  /** The table found is the one the statement alters. */
  lemma AlterSpecAt(v: seq<TableV>, stmt: AlterTableStmt, i: nat)
    requires FirstTable(v, stmt.relation.relname) == Some(i)
    ensures i < |v|
    ensures AlterSpec(v, stmt) == Ok(v[i := v[i].(columns := SchemaModel.ApplyCommands(v[i].columns, stmt.cmds, LegacyEffect))])
  {
    AlterWithAt(v, stmt, LegacyEffect, i);
  }

  /** A safe statement is safe for the commands on the table found. */
  lemma StmtSafeAt(v: seq<TableV>, stmt: AlterTableStmt, i: nat)
    requires FirstTable(v, stmt.relation.relname) == Some(i)
    requires StmtSafe(v, AlterTableStmtNode(stmt))
    ensures i < |v| && CommandsSafe(v[i].columns, stmt.cmds)
  {
    assert AlterSafe(v, stmt);
    assert SafeAt(v, i, stmt.cmds);
  }

  /** A CREATE TABLE statement: its table is appended to the schema. */
  method CreateTable(schema: Schema, stmt: CreateStmt)
    requires schema.Valid()
    modifies schema
    ensures schema.Valid() && schema.Value() == old(schema.Value()) + [ToTableV(stmt)]
    ensures forall c :: c in schema.Columns() ==> c in old(schema.Columns()) || fresh(c)
  {
    ghost var v0 := schema.Value();
    ghost var rs := schema.Refs();
    var t := ToTable(stmt);
    assert schema.Refs() == rs;
    assert schema.Value() == v0;
    schema.AppendTable(t);
  }

  method HandleStatement(schema: Schema, n: Node) returns (r: Outcome<SchemaError>)
    requires schema.Valid() && StmtSafe(schema.Value(), n)
    modifies schema, schema.Columns()
    ensures schema.Valid()
    ensures forall c :: c in schema.Columns() ==> c in old(schema.Columns()) || fresh(c)
    ensures match BuildStep(old(schema.Value()), n, LegacyEffect)
      case Ok(ts) => r == Pass && schema.Value() == ts
      case Err(e) => r == Fail(e)
  {
    match n {
      case CreateStmtNode(cs) =>
        CreateTable(schema, cs);
        return Pass;
      case AlterTableStmtNode(a) =>
        r := AlterTable(schema, a);
      case _ =>
        return Pass;
    }
  }

  /** The schema of a parsed script, as the legacy program builds it; the
      script must not make its ALTER TABLE handler dereference nil. */
  method AstTreeToSchema(tree: ParseResult) returns (r: Result<Schema, SchemaError>)
    requires BuildSafe(tree.stmts)
    ensures match BuildSpec(tree.stmts)
      case Ok(ts) => r.Ok? && fresh(r.value) && r.value.Valid() && r.value.Value() == ts
      case Err(e) => r == Err(e)
  {
    var schema := new Schema();
    var stmts := tree.stmts;
    for i := 0 to |stmts|
      invariant fresh(schema) && schema.Valid()
      invariant forall c :: c in schema.Columns() ==> fresh(c)
      invariant BuildSpec(stmts[..i]) == Ok(schema.Value())
    {
      BuildWithSnoc(stmts, i, LegacyEffect);
      var res := HandleStatement(schema, stmts[i]);
      if res.Fail? {
        BuildErrSticky(stmts, i + 1, LegacyEffect);
        return Err(res.error);
      }
    }
    assert stmts[..|stmts|] == stmts;
    return Ok(schema);
  }

  // ----- diagram synthesis -----

  /** The legacy row label: the column's raw type. */
  function TypeLabel(c: ColumnV): string
  {
    c.sqlType
  }

  /** The edges of one column, one per reference object, to the table and
      column the object reads. */
  method EmitReferences(g: Engine, src: string, refs: seq<ForeignReference>) returns (ok: bool)
    modifies g`log
    ensures Ran(g.accepts, old(g.log), g.log, ok, EdgeOps(src, old(RefValues(refs))))
  {
    ghost var rv := RefValues(refs);
    ghost var l0 := g.log;
    ghost var done: seq<Op> := [];
    assert l0 + done == l0 && rv[0..] == rv;
    for k := 0 to |refs|
      invariant Ran(g.accepts, l0, g.log, true, done)
      invariant EdgeOps(src, rv) == done + EdgeOps(src, rv[k..])
    {
      var foreignReference := refs[k];
      ghost var op := Edge(src, foreignReference.table + "." + foreignReference.column);
      ghost var rest := EdgeOps(src, rv[k + 1..]);
      EdgeOpsAt(src, rv, k);
      ghost var mid := g.log;
      ok := g.CreateEdge(src, foreignReference.table + "." + foreignReference.column);
      RanOne(g.accepts, mid, op);
      RanStep(g.accepts, l0, mid, g.log, ok, EdgeOps(src, rv), done, [op], rest);
      if !ok {
        return;
      }
      done := done + [op];
    }
    assert rv[|refs|..] == [] && done + [] == done;
    return true;
  }

  /** A column's row: its raw type, then its edges. */
  method EmitColumn(g: Engine, tname: string, c: Column, ghost v: ColumnV) returns (ok: bool)
    requires v == c.Value()
    modifies g`log
    ensures Ran(g.accepts, old(g.log), g.log, ok, RowOps(tname, v, TypeLabel))
  {
    var path := tname + "." + c.name;
    ghost var edges := EdgeOps(path, RefValues(c.foreignKeyReferences));
    ghost var l0 := g.log;
    ok := g.Set(path, c.sqlType);
    RanOne(g.accepts, l0, Op.Set(path, c.sqlType));
    if !ok {
      RanStop(g.accepts, l0, g.log, [Op.Set(path, c.sqlType)], edges);
      return;
    }
    ghost var l1 := g.log;
    ok := EmitReferences(g, path, c.foreignKeyReferences);
    RanThen(g.accepts, l0, l1, g.log, ok, [Op.Set(path, c.sqlType)], edges);
  }

  /** The rows of a table, in column order. */
  method EmitColumns(g: Engine, tname: string, cols: seq<Column>) returns (ok: bool)
    modifies g`log
    ensures Ran(g.accepts, old(g.log), g.log, ok, ColumnsOps(tname, old(ColumnValues(cols)), TypeLabel))
  {
    ghost var cv := ColumnValues(cols);
    ghost var l0 := g.log;
    ghost var done: seq<Op> := [];
    assert l0 + done == l0 && cv[0..] == cv;
    for j := 0 to |cols|
      invariant Ran(g.accepts, l0, g.log, true, done)
      invariant ColumnsOps(tname, cv, TypeLabel) == done + ColumnsOps(tname, cv[j..], TypeLabel)
    {
      ghost var row := RowOps(tname, cv[j], TypeLabel);
      ghost var rest := ColumnsOps(tname, cv[j + 1..], TypeLabel);
      ColumnsOpsAt(tname, cv, TypeLabel, j);
      ghost var mid := g.log;
      assert cols[j].Value() == cv[j];
      ok := EmitColumn(g, tname, cols[j], cv[j]);
      RanStep(g.accepts, l0, mid, g.log, ok, ColumnsOps(tname, cv, TypeLabel), done, row, rest);
      if !ok {
        return;
      }
      done := done + row;
    }
    assert cv[|cols|..] == [] && done + [] == done;
    return true;
  }

  /** A table: its node, the node's shape, then its rows. */
  method EmitTable(g: Engine, t: Table) returns (ok: bool)
    modifies g`log
    ensures Ran(g.accepts, old(g.log), g.log, ok, Block(old(t.Value()), g.namer(old(g.log), old(t.name)), TypeLabel))
  {
    ghost var cv := ColumnValues(t.columns);
    ghost var rs := RefsOf(t.columns);
    ghost var rows := ColumnsOps(t.name, cv, TypeLabel);
    ghost var l0 := g.log;
    var newKey;
    newKey, ok := g.Create(t.name);
    RanOne(g.accepts, l0, Op.Create(t.name));
    ghost var shape := Op.Set(newKey + ".shape", Shape);
    if !ok {
      RanStop(g.accepts, l0, g.log, [Op.Create(t.name)], [shape] + rows);
      assert [Op.Create(t.name)] + ([shape] + rows) == [Op.Create(t.name), shape] + rows;
      return;
    }
    ghost var l1 := g.log;
    ok := g.Set(newKey + ".shape", Shape);
    RanOne(g.accepts, l1, shape);
    RanThen(g.accepts, l0, l1, g.log, ok, [Op.Create(t.name)], [shape]);
    assert [Op.Create(t.name)] + [shape] == [Op.Create(t.name), shape];
    if !ok {
      RanStop(g.accepts, l0, g.log, [Op.Create(t.name), shape], rows);
      return;
    }
    ghost var l2 := g.log;
    assert RefsOf(t.columns) == rs;
    assert ColumnValues(t.columns) == cv;
    ok := EmitColumns(g, t.name, t.columns);
    RanThen(g.accepts, l0, l2, g.log, ok, [Op.Create(t.name), shape], rows);
  }

  /** The legacy diagram of a schema: the same plan as the current program
      but with raw types as rows and raw references as edge targets. */
  method TransformGraph(schema: Schema, g: Engine) returns (r: Outcome<DiagramError>)
    modifies g`log
    ensures var t := Run(g.accepts, old(g.log), Plan(old(schema.Value()), TypeLabel, g.namer, old(g.log)));
      g.log == old(g.log) + t.emitted && r == (if t.ok then Pass else Fail(EngineFailure))
  {
    ghost var ts := schema.Value();
    ghost var l0 := g.log;
    ghost var plan := Plan(ts, TypeLabel, g.namer, l0);
    ghost var done: seq<Op> := [];
    assert l0 + done == l0 && ts[0..] == ts;
    var tables := schema.tables;
    for i := 0 to |tables|
      invariant Ran(g.accepts, l0, g.log, true, done)
      invariant plan == done + Plan(ts[i..], TypeLabel, g.namer, g.log)
    {
      assert ts[i] == tables[i].Value();
      ghost var l1 := g.log;
      ghost var b := Block(ts[i], g.namer(l1, ts[i].name), TypeLabel);
      ghost var rest := Plan(ts[i + 1..], TypeLabel, g.namer, l1 + b);
      PlanAt(ts, TypeLabel, g.namer, l1, i);
      var ok := EmitTable(g, tables[i]);
      RanStep(g.accepts, l0, l1, g.log, ok, plan, done, b, rest);
      if !ok {
        return Fail(EngineFailure);
      }
      done := done + b;
    }
    assert ts[|tables|..] == [] && done + [] == done;
    assert Ran(g.accepts, l0, g.log, true, plan);
    return Pass;
  }

  // ----- the foreign key lands on the referenced column's name -----

  /** The columns of `posts(id int, user_id int)`. */
  function PostsColumns(): seq<ColumnV>
  {
    [ColumnV("id", "int", [], [], 0), ColumnV("user_id", "int", [], [], 0)]
  }

  /** The command of `ALTER TABLE posts ADD FOREIGN KEY (user_id)
      REFERENCES users (id)`. */
  function PostsForeignKey(): Node
  {
    AlterTableCmdNode(AlterTableCmd(AtAddConstraint, ConstraintNode(
      Constraint(ConstrForeign, RangeVar("users"), [StringNode("id")], [StringNode("user_id")], []))))
  }

  /** The legacy handler files the reference under `posts.id`, the column
      that happens to share the referenced column's name, and leaves
      `posts.user_id` without one. */
  lemma LegacyForeignKeyMisplaced(cs: seq<ColumnV>, n: Node)
    requires cs == PostsColumns() && n == PostsForeignKey()
    ensures LegacyEffect(cs, n) ==
      [ColumnV("id", "int", [], [RefV("users", "id")], 0), ColumnV("user_id", "int", [], [], 0)]
  {
    var ref := RefV("users", "id");
    PostsLegacyEffect(cs, n);
    AddForeignKeysOne(cs, "id", ref);
    PostsRefColumn(cs, "id", 0);
  }

  /** The current program files it under `posts.user_id`. */
  lemma CurrentForeignKeyPlaced(cs: seq<ColumnV>, n: Node)
    requires cs == PostsColumns() && n == PostsForeignKey()
    ensures Sql2Diagram.CommandEffect(cs, n) ==
      [ColumnV("id", "int", [], [], 0), ColumnV("user_id", "int", [], [RefV("users", "id")], 0)]
  {
    var ref := RefV("users", "id");
    PostsCurrentEffect(cs, n);
    AddForeignKeysOne(cs, "user_id", ref);
    PostsRefColumn(cs, "user_id", 1);
  }

  /** The legacy handler keys the foreign key by its one PkAttr, "id". */
  lemma PostsLegacyEffect(cs: seq<ColumnV>, n: Node)
    requires n == PostsForeignKey()
    ensures LegacyEffect(cs, n) == AddForeignKeys(cs, ["id"], RefV("users", "id"))
  {
    OneStringVal("id");
  }

  /** The current handler keys it by its one FkAttr, "user_id". */
  lemma PostsCurrentEffect(cs: seq<ColumnV>, n: Node)
    requires n == PostsForeignKey()
    ensures Sql2Diagram.CommandEffect(cs, n) == AddForeignKeys(cs, ["user_id"], RefV("users", "id"))
  {
    var k := n.alterTableCmd.def.constraint;
    assert k.contype == ConstrForeign && k.pktable.relname == "users";
    assert k.pkAttrs == [StringNode("id")] && k.fkAttrs == [StringNode("user_id")];
    OneStringVal("id");
    OneStringVal("user_id");
  }

  lemma OneStringVal(s: string)
    ensures StringVals([StringNode(s)]) == [s]
  {
    assert [StringNode(s)][..0] == [];
  }

  lemma AddForeignKeysOne(cs: seq<ColumnV>, s: string, ref: RefV)
    ensures AddForeignKeys(cs, [s], ref) == RefColumn(cs, s, ref)
  {
    assert [s][..0] == [];
  }

  /** On the posts columns, the reference lands on the column at `k`, the
      first called `name`. */
  lemma PostsRefColumn(cs: seq<ColumnV>, name: string, k: nat)
    requires cs == PostsColumns() && k < 2 && cs[k].name == name
    ensures RefColumn(cs, name, RefV("users", "id")) == cs[k := cs[k].(refs := [RefV("users", "id")])]
  {
    assert "user_id"[0] != "id"[0];
    assert FirstColumn(cs, name) == Some(k);
    assert cs[k].refs + [RefV("users", "id")] == [RefV("users", "id")];
  }
}
