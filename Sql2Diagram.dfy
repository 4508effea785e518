/** The current program, cmd/sql2diagram/main.go: the schema is built in
    place from the statements of a parsed script, then handed, table by
    table, to the diagram engine. A foreign reference of this program is
    never changed once it is appended, so it is kept as a value (`RefV`). */
module Sql2Diagram {
  import opened PgQuery
  import opened Results
  import opened SchemaModel
  import opened Decimal
  import opened Diagram
  import opened Footprint

  class Column {
    var name: string
    var sqlType: string
    var constraints: seq<string>
    var foreignKeyReferences: seq<RefV>
    var length: int

    constructor (name: string)
      ensures Value() == ColumnV(name, "", [], [], 0)
    {
      this.name := name;
      sqlType := "";
      constraints := [];
      foreignKeyReferences := [];
      length := 0;
    }

    ghost function Value(): ColumnV
      reads this
    {
      ColumnV(name, sqlType, constraints, foreignKeyReferences, length)
    }

    /** The NOT NULL case of the constraint switch: the tag is added only
        when the column does not have it yet. */
    method AddNotNull()
      modifies this
      ensures Value() == if NotNull in old(constraints) then old(Value())
                         else old(Value()).(constraints := old(constraints) + [NotNull])
    {
      var alreadyExists := false;
      for i := 0 to |constraints|
        invariant alreadyExists <==> NotNull in constraints[..i]
      {
        if constraints[i] == NotNull {
          alreadyExists := true;
        }
      }
      assert constraints[..|constraints|] == constraints;
      if !alreadyExists {
        constraints := constraints + [NotNull];
      }
    }

    /** The FOREIGN KEY case of the constraint switch. */
    method AddInlineForeignKey(k: Constraint)
      modifies this
      ensures Value() == ForeignStep(old(Value()), k.pktable.relname, StringVals(k.pkAttrs))
    {
      var pktable := k.pktable.relname;
      var foreignReference := RefV(pktable, "");
      var found := false;
      var pks := k.pkAttrs;
      for i := 0 to |pks|
        invariant unchanged(this)
        invariant foreignReference == RefV(pktable, LastOr(StringVals(pks[..i]), ""))
        invariant found <==> exists p :: p in StringVals(pks[..i]) && RefV(pktable, p) in foreignKeyReferences
      {
        StringValsSnoc(pks, i);
        match pks[i] {
          case StringNode(s) =>
            var hit := HasReference(pktable, s);
            found := found || hit;
            foreignReference := foreignReference.(column := s);
          case _ =>
        }
      }
      assert pks[..|pks|] == pks;
      if !found {
        foreignKeyReferences := foreignKeyReferences + [foreignReference];
      }
    }

    /** The scan of the existing references for a (table, column) pair. */
    method HasReference(table: string, column: string) returns (found: bool)
      ensures found <==> RefV(table, column) in foreignKeyReferences
    {
      found := false;
      var refs := foreignKeyReferences;
      for m := 0 to |refs|
        invariant found <==> RefV(table, column) in refs[..m]
      {
        if refs[m].table == table && refs[m].column == column {
          found := true;
        }
      }
      assert refs[..|refs|] == refs;
    }

    /** One String name of the type: it becomes the type, and the last
        integer type modifier, if any, becomes the length. */
    method SetType(s: string, mods: seq<Node>)
      modifies this
      ensures Value() == old(Value()).(sqlType := s,
        length := match LastInt(mods) case Some(v) => v case None => old(length))
    {
      ghost var prev := Value();
      sqlType := s;
      for j := 0 to |mods|
        invariant Value() ==
          prev.(sqlType := s, length := match LastInt(mods[..j]) case Some(v) => v case None => prev.length)
      {
        assert mods[..j + 1][..j] == mods[..j];
        match mods[j] {
          case AConstNode(AConst(IntegerVal(v))) =>
            length := v as int;
          case _ =>
        }
      }
      assert mods[..|mods|] == mods;
    }

    /** The constraint loop of a column definition. */
    method AddConstraints(cons: seq<Node>)
      modifies this
      ensures Value() == ApplyConstraints(old(Value()), cons)
    {
      ghost var mid := Value();
      for j := 0 to |cons|
        invariant Value() == ApplyConstraints(mid, cons[..j])
      {
        assert cons[..j + 1][..j] == cons[..j];
        match cons[j] {
          case ConstraintNode(k) =>
            match k.contype {
              case ConstrPrimary =>
                constraints := constraints + [Primary];
              case ConstrForeign =>
                AddInlineForeignKey(k);
              case ConstrNotNull =>
                AddNotNull();
              case ConstrOther =>
            }
          case _ =>
        }
      }
      assert cons[..|cons|] == cons;
    }
  }

  /** The values of a list of columns, position by position. */
  ghost function ColumnValues(cs: seq<Column>): (vs: seq<ColumnV>)
    reads cs
    ensures |vs| == |cs| && forall i :: 0 <= i < |cs| ==> vs[i] == cs[i].Value()
  {
    seq(|cs|, i requires 0 <= i < |cs| reads cs => cs[i].Value())
  }

  class Table {
    var name: string
    var columns: seq<Column>

    constructor (name: string)
      ensures this.name == name && columns == []
    {
      this.name := name;
      columns := [];
    }

    ghost function Value(): TableV
      reads this, columns
    {
      TableV(name, ColumnValues(columns))
    }

    /** The append of a column object the table does not hold yet. */
    method AppendColumn(col: Column)
      requires ColumnsDistinct(columns) && col !in columns
      modifies this`columns
      ensures columns == old(columns) + [col] && ColumnsDistinct(columns)
      ensures ColumnValues(columns) == old(ColumnValues(columns)) + [col.Value()]
    {
      ghost var before := ColumnValues(columns);
      columns := columns + [col];
      assert ColumnValues(columns) == before + [col.Value()];
    }

    /** The first column called `name`, the lookup of the ALTER TABLE
        handler. */
    method FindColumn(name: string) returns (col: Column?)
      ensures match FirstColumn(ColumnValues(columns), name)
        case None => col == null
        case Some(k) => k < |columns| && col == columns[k]
    {
      for i := 0 to |columns|
        invariant forall j :: 0 <= j < i ==> columns[j].name != name
      {
        if columns[i].name == name {
          return columns[i];
        }
      }
      return null;
    }

    /** Appending a tag to one column object changes that one position of
        the table's column values. */
    method TagAt(ghost name: string, ghost k: nat, col: Column, tag: string)
      requires FirstColumn(ColumnValues(columns), name) == Some(k)
      requires k < |columns| && col == columns[k] && ColumnsDistinct(columns)
      modifies col
      ensures ColumnValues(columns) == TagColumn(old(ColumnValues(columns)), name, tag)
    {
      ghost var before := ColumnValues(columns);
      col.constraints := col.constraints + [tag];
      assert ColumnValues(columns) == before[k := before[k].(constraints := before[k].constraints + [tag])];
    }

    /** Appending a reference to one column object changes that one
        position of the table's column values. */
    method ReferenceAt(ghost name: string, ghost k: nat, col: Column, ref: RefV)
      requires FirstColumn(ColumnValues(columns), name) == Some(k)
      requires k < |columns| && col == columns[k] && ColumnsDistinct(columns)
      modifies col
      ensures ColumnValues(columns) == RefColumn(old(ColumnValues(columns)), name, ref)
    {
      ghost var before := ColumnValues(columns);
      col.foreignKeyReferences := col.foreignKeyReferences + [ref];
      assert ColumnValues(columns) == before[k := before[k].(refs := before[k].refs + [ref])];
    }

    /** The first column called `name`, if any, gets `tag`. */
    method TagNamed(name: string, tag: string)
      requires ColumnsDistinct(columns)
      modifies columns
      ensures ColumnValues(columns) == TagColumn(old(ColumnValues(columns)), name, tag)
    {
      var col := FindColumn(name);
      if col != null {
        TagAt(name, FirstColumn(ColumnValues(columns), name).value, col, tag);
      }
    }

    /** The first column called `name`, if any, gets `ref`. */
    method ReferenceNamed(name: string, ref: RefV)
      requires ColumnsDistinct(columns)
      modifies columns
      ensures ColumnValues(columns) == RefColumn(old(ColumnValues(columns)), name, ref)
    {
      var col := FindColumn(name);
      if col != null {
        ReferenceAt(name, FirstColumn(ColumnValues(columns), name).value, col, ref);
      }
    }

    /** ADD CONSTRAINT ... PRIMARY KEY: each String key tags its column. */
    method AddPrimaryKey(keys: seq<Node>)
      requires ColumnsDistinct(columns)
      modifies columns
      ensures Value().columns == AddPrimaryKeys(old(Value()).columns, StringVals(keys))
    {
      ghost var cs0 := Value().columns;
      for i := 0 to |keys|
        invariant Value().columns == AddPrimaryKeys(cs0, StringVals(keys[..i]))
      {
        StringValsSnoc(keys, i);
        match keys[i] {
          case StringNode(s) =>
            TagNamed(s, Primary);
            AddPrimaryKeysSnoc(cs0, StringVals(keys[..i]), s);
          case _ =>
        }
      }
      assert keys[..|keys|] == keys;
    }

    /** ADD CONSTRAINT ... FOREIGN KEY: one reference, naming the last
        String primary-key attribute, added to the column of each String
        foreign-key attribute. */
    method AddForeignKey(k: Constraint)
      requires ColumnsDistinct(columns)
      modifies columns
      ensures Value().columns ==
        AddForeignKeys(old(Value()).columns, StringVals(k.fkAttrs), RefV(k.pktable.relname, LastOr(StringVals(k.pkAttrs), "")))
    {
      var foreignReference := ForeignReferenceOf(k);
      ghost var cs0 := Value().columns;
      var fks := k.fkAttrs;
      for i := 0 to |fks|
        invariant Value().columns == AddForeignKeys(cs0, StringVals(fks[..i]), foreignReference)
      {
        StringValsSnoc(fks, i);
        match fks[i] {
          case StringNode(s) =>
            ReferenceNamed(s, foreignReference);
            AddForeignKeysSnoc(cs0, StringVals(fks[..i]), s, foreignReference);
          case _ =>
        }
      }
      assert fks[..|fks|] == fks;
    }

    /** The commands of an ALTER TABLE statement, in order. */
    method ApplyCommands(cmds: seq<Node>)
      requires ColumnsDistinct(columns)
      modifies columns
      ensures Value() == old(Value()).(columns := SchemaModel.ApplyCommands(old(Value()).columns, cmds, CommandEffect))
    {
      ghost var v0 := Value();
      for c := 0 to |cmds|
        invariant Value() == v0.(columns := SchemaModel.ApplyCommands(v0.columns, cmds[..c], CommandEffect))
      {
        assert cmds[..c + 1][..c] == cmds[..c];
        ApplyCommand(cmds[c]);
      }
      assert cmds[..|cmds|] == cmds;
    }

    /** One command of an ALTER TABLE statement. */
    method ApplyCommand(n: Node)
      requires ColumnsDistinct(columns)
      modifies columns
      ensures Value() == old(Value()).(columns := CommandEffect(old(Value()).columns, n))
    {
      match n {
        case AlterTableCmdNode(cmd) =>
          if cmd.subtype == AtAddConstraint {
            match cmd.def {
              case ConstraintNode(k) =>
                if k.contype == ConstrPrimary {
                  AddPrimaryKey(k.keys);
                } else if k.contype == ConstrForeign {
                  AddForeignKey(k);
                }
              case _ =>
            }
          }
        case _ =>
      }
    }
  }

  /** The reference of an ALTER TABLE foreign key: the referenced table and
      the last String primary-key attribute, or "" when there is none. */
  method ForeignReferenceOf(k: Constraint) returns (ref: RefV)
    ensures ref.table == k.pktable.relname
    ensures StringVals(k.pkAttrs) == [] ==> ref.column == ""
    ensures StringVals(k.pkAttrs) != [] ==> ref.column == StringVals(k.pkAttrs)[|StringVals(k.pkAttrs)| - 1]
  {
    ref := RefV(k.pktable.relname, "");
    var pks := k.pkAttrs;
    for i := 0 to |pks|
      invariant ref == RefV(k.pktable.relname, LastOr(StringVals(pks[..i]), ""))
    {
      assert pks[..i + 1][..i] == pks[..i];
      match pks[i] {
        case StringNode(s) =>
          ref := ref.(column := s);
        case _ =>
      }
    }
    assert pks[..|pks|] == pks;
  }

  /** The column lists of a list of tables, which is all of the heap that
      the schema's shape depends on. */
  ghost function ColumnLists(ts: seq<Table>): (ls: seq<seq<Column>>)
    reads ts
    ensures |ls| == |ts| && forall j :: 0 <= j < |ts| ==> ls[j] == ts[j].columns
  {
    seq(|ts|, j requires 0 <= j < |ts| reads ts => ts[j].columns)
  }

  ghost function ColumnsOf(ts: seq<Table>): set<Column>
    reads ts
  {
    AllColumns(ColumnLists(ts))
  }

  lemma ColumnsOfTable(ts: seq<Table>, i: nat)
    requires i < |ts|
    ensures forall c :: c in ts[i].columns ==> c in ColumnsOf(ts)
  {
  }

  lemma ColumnsOfAppend(ts: seq<Table>, t: Table)
    ensures ColumnLists(ts + [t]) == ColumnLists(ts) + [t.columns]
    ensures ColumnsOf(ts + [t]) == ColumnsOf(ts) + set c | c in t.columns
  {
    assert ColumnLists(ts + [t]) == ColumnLists(ts) + [t.columns];
    AllColumnsAppend(ColumnLists(ts), t.columns);
  }

  /** Appending a table whose column objects are distinct and new keeps a
      table list free of shared columns. */
  lemma DisjointAppend(ts: seq<Table>, t: Table)
    requires DisjointColumns(ts) && ColumnsDistinct(t.columns)
    requires forall c :: c in t.columns ==> c !in ColumnsOf(ts)
    ensures DisjointColumns(ts + [t])
  {
    ColumnsOfAppend(ts, t);
    NoSharedAppend(ColumnLists(ts), t.columns);
  }

  /** No column object is shared between two places of a table list, so
      changing one column changes one place. */
  ghost predicate DisjointColumns(ts: seq<Table>)
    reads ts
  {
    NoSharedColumns(ColumnLists(ts))
  }

  ghost function TableValues(ts: seq<Table>): (vs: seq<TableV>)
    reads ts, ColumnsOf(ts)
    ensures |vs| == |ts| && forall i :: 0 <= i < |ts| ==> vs[i] == ts[i].Value()
  {
    seq(|ts|, i requires 0 <= i < |ts| reads ts, ColumnsOf(ts) =>
      assert forall c :: c in ts[i].columns ==> c in ColumnsOf(ts);
      ts[i].Value())
  }

  class Schema {
    var tables: seq<Table>

    constructor ()
      ensures tables == []
    {
      tables := [];
    }

    ghost function Columns(): set<Column>
      reads this, tables
    {
      ColumnsOf(tables)
    }

    /** No column object is shared between two places of the schema, so
        changing one column changes one place. */
    ghost predicate Valid()
      reads this, tables
    {
      DisjointColumns(tables)
    }

    /** The append of a new table, keeping the schema free of shared
        columns. */
    method AppendTable(t: Table)
      requires Valid() && ColumnsDistinct(t.columns)
      requires forall c :: c in t.columns ==> c !in Columns()
      modifies this
      ensures tables == old(tables) + [t] && Valid()
      ensures Value() == old(Value()) + [t.Value()]
      ensures Columns() == old(Columns()) + set c | c in t.columns
    {
      DisjointAppend(tables, t);
      ColumnsOfAppend(tables, t);
      ghost var before := Value();
      tables := tables + [t];
      assert Value() == before + [t.Value()];
    }

    /** The commands of an ALTER TABLE applied to the `i`-th table, which
        is the only one that changes. */
    method ApplyCommandsAt(ghost v: seq<TableV>, i: nat, cmds: seq<Node>)
      requires Valid() && i < |tables| && v == Value()
      modifies Columns()
      ensures Value() == v[i := v[i].(columns := SchemaModel.ApplyCommands(v[i].columns, cmds, CommandEffect))]
      ensures ColumnLists(tables) == old(ColumnLists(tables))
      ensures Valid() && Columns() == old(Columns())
    {
      var t := tables[i];
      assert ColumnsDistinct(t.columns);
      ColumnsOfTable(tables, i);
      t.ApplyCommands(cmds);
      forall j | 0 <= j < |tables| && j != i
        ensures tables[j].Value() == old(tables[j].Value())
      {
        assert forall l :: 0 <= l < |tables[j].columns| ==> tables[j].columns[l] !in t.columns;
      }
      assert Value() == v[i := t.Value()];
    }

    /** The first table called `name`, the lookup of the ALTER TABLE
        handler. */
    method FindTable(name: string) returns (t: Table?, i: nat)
      ensures match FirstTable(Value(), name)
        case None => t == null
        case Some(k) => i == k && k < |tables| && t == tables[k]
    {
      i := 0;
      while i < |tables|
        invariant i <= |tables|
        invariant forall j :: 0 <= j < i ==> tables[j].name != name
      {
        if tables[i].name == name {
          return tables[i], i;
        }
        i := i + 1;
      }
      assert forall j :: 0 <= j < |tables| ==> Value()[j].name != name;
      return null, 0;
    }

    ghost function Value(): seq<TableV>
      reads this, tables, Columns()
    {
      TableValues(tables)
    }
  }

  // ----- schema extraction -----

  /** The column built from a column definition, following the
      program's loop nesting: the type-modifier loop and the constraint
      loop run once per String name node of the type. */
  method GenerateColumnProperties(def: ColumnDef) returns (column: Column)
    ensures fresh(column)
    ensures column.Value() == ExtractColumn(def)
  {
    column := new Column(def.colname);
    ghost var c0 := column.Value();
    var names := def.typeName.names;
    for i := 0 to |names|
      invariant column.Value() == ApplyNames(c0, names[..i], def)
    {
      assert names[..i + 1][..i] == names[..i];
      match names[i] {
        case StringNode(s) =>
          column.SetType(s, def.typeName.typmods);
          column.AddConstraints(def.constraints);
        case _ =>
      }
    }
    assert names[..|names|] == names;
  }

  /** A CREATE TABLE statement's table: one fresh column per column
      definition, table constraints being skipped. */
  method ToTable(stmt: CreateStmt) returns (table: Table)
    ensures fresh(table) && table.Value() == ToTableV(stmt)
    ensures ColumnsDistinct(table.columns) && forall c :: c in table.columns ==> fresh(c)
  {
    table := new Table(stmt.relation.relname);
    var elts := stmt.tableElts;
    for i := 0 to |elts|
      invariant fresh(table) && table.name == stmt.relation.relname
      invariant ColumnsDistinct(table.columns) && forall c :: c in table.columns ==> fresh(c)
      invariant ColumnValues(table.columns) == TableColumns(elts[..i])
    {
      assert elts[..i + 1][..i] == elts[..i];
      match elts[i] {
        case ColumnDefNode(d) =>
          var col := GenerateColumnProperties(d);
          table.AppendColumn(col);
        case _ =>
      }
    }
    assert elts[..|elts|] == elts;
  }

  /** What one ALTER TABLE command does to the columns of its table: only
      ADD CONSTRAINT with a PRIMARY KEY (keyed by Keys) or a FOREIGN KEY
      (keyed by FkAttrs) acts. */
  function CommandEffect(cs: seq<ColumnV>, n: Node): seq<ColumnV>
  {
    match n
    case AlterTableCmdNode(cmd) =>
      if cmd.subtype != AtAddConstraint then cs
      else
        (match cmd.def
         case ConstraintNode(k) =>
           if k.contype == ConstrPrimary then AddPrimaryKeys(cs, StringVals(k.keys))
           else if k.contype == ConstrForeign then
             AddForeignKeys(cs, StringVals(k.fkAttrs), RefV(k.pktable.relname, LastOr(StringVals(k.pkAttrs), "")))
           else cs
         case _ => cs)
    case _ => cs
  }

  /** A PRIMARY KEY command tags the columns its Keys name; a FOREIGN KEY
      command gives the columns its FkAttrs name the reference to the
      referenced table and the last String PkAttr; any other command
      changes nothing. */
  lemma CommandEffectCases(cs: seq<ColumnV>, n: Node)
    ensures var r := CommandEffect(cs, n);
      if IsAddConstraint(n, ConstrPrimary) then
        TaggedBy(cs, r, StringVals(n.alterTableCmd.def.constraint.keys))
      else if IsAddConstraint(n, ConstrForeign) then
        var k := n.alterTableCmd.def.constraint;
        ReferencedBy(cs, r, StringVals(k.fkAttrs), RefV(k.pktable.relname, LastOr(StringVals(k.pkAttrs), "")))
      else r == cs
  {
    if IsAddConstraint(n, ConstrPrimary) {
      PrimaryKeysEffect(cs, StringVals(n.alterTableCmd.def.constraint.keys));
    } else if IsAddConstraint(n, ConstrForeign) {
      var k := n.alterTableCmd.def.constraint;
      ForeignKeysEffect(cs, StringVals(k.fkAttrs), RefV(k.pktable.relname, LastOr(StringVals(k.pkAttrs), "")));
    }
  }

  function AlterSpec(ts: seq<TableV>, stmt: AlterTableStmt): Result<seq<TableV>, SchemaError>
  {
    AlterWith(ts, stmt, CommandEffect)
  }

  function BuildSpec(stmts: seq<Node>): Result<seq<TableV>, SchemaError>
  {
    BuildWith(stmts, CommandEffect)
  }

  /** An ALTER TABLE statement applied to the first table of its relation
      name; with no such table the schema is left alone and the statement
      fails. */
  method AlterTable(schema: Schema, stmt: AlterTableStmt) returns (r: Outcome<SchemaError>)
    requires schema.Valid()
    modifies schema.Columns()
    ensures match AlterSpec(old(schema.Value()), stmt)
      case Ok(ts) => r == Pass && schema.Value() == ts
      case Err(e) => r == Fail(e) && schema.Value() == old(schema.Value())
    ensures schema.tables == old(schema.tables) && schema.Valid()
    ensures schema.Columns() == old(schema.Columns())
  {
    ghost var v0 := schema.Value();
    var sourceTable, i := schema.FindTable(stmt.relation.relname);
    if sourceTable == null {
      return Fail(UnknownTable);
    }
    AlterSpecAt(v0, stmt, i);
    schema.ApplyCommandsAt(v0, i, stmt.cmds);
    return Pass;
  }

  /** The table found is the one the statement alters. */
  lemma AlterSpecAt(v: seq<TableV>, stmt: AlterTableStmt, i: nat)
    requires FirstTable(v, stmt.relation.relname) == Some(i)
    ensures i < |v|
    ensures AlterSpec(v, stmt) == Ok(v[i := v[i].(columns := SchemaModel.ApplyCommands(v[i].columns, stmt.cmds, CommandEffect))])
  {
    AlterWithAt(v, stmt, CommandEffect, i);
  }

  /** One statement of the script: a CREATE TABLE adds its table, an
      ALTER TABLE changes one, anything else is skipped. */
  method HandleStatement(schema: Schema, n: Node) returns (r: Outcome<SchemaError>)
    requires schema.Valid()
    modifies schema, schema.Columns()
    ensures schema.Valid()
    ensures forall c :: c in schema.Columns() ==> c in old(schema.Columns()) || fresh(c)
    ensures match BuildStep(old(schema.Value()), n, CommandEffect)
      case Ok(ts) => r == Pass && schema.Value() == ts
      case Err(e) => r == Fail(e)
  {
    match n {
      case CreateStmtNode(cs) =>
        var t := ToTable(cs);
        schema.AppendTable(t);
        return Pass;
      case AlterTableStmtNode(a) =>
        r := AlterTable(schema, a);
      case _ =>
        return Pass;
    }
  }

  /** The schema of a parsed script: CREATE TABLE statements add tables,
      ALTER TABLE statements change them in place, and the first failing
      ALTER TABLE ends the extraction with its error. */
  method AstTreeToSchema(tree: ParseResult) returns (r: Result<Schema, SchemaError>)
    ensures match BuildSpec(tree.stmts)
      case Ok(ts) => r.Ok? && fresh(r.value) && r.value.Valid() && r.value.Value() == ts
      case Err(e) => r == Err(e)
  {
    var schema := new Schema();
    var stmts := tree.stmts;
    for i := 0 to |stmts|
      invariant fresh(schema) && schema.Valid()
      invariant forall c :: c in schema.Columns() ==> fresh(c)
      invariant BuildSpec(stmts[..i]) == Ok(schema.Value())
    {
      BuildWithSnoc(stmts, i, CommandEffect);
      var res := HandleStatement(schema, stmts[i]);
      if res.Fail? {
        BuildErrSticky(stmts, i + 1, CommandEffect);
        return Err(res.error);
      }
    }
    assert stmts[..|stmts|] == stmts;
    return Ok(schema);
  }

  // ----- diagram synthesis -----

  /** Whether `item` is one of `slice`. */
  method Contains(slice: seq<string>, item: string) returns (found: bool)
    ensures found <==> item in slice
  {
    for i := 0 to |slice|
      invariant forall j :: 0 <= j < i ==> slice[j] != item
    {
      if slice[i] == item {
        return true;
      }
    }
    return false;
  }

  /** The column type as printed: with the length in parentheses when it
      is positive. */
  function Base(c: ColumnV): string
  {
    if c.length > 0 then c.sqlType + "(" + NatToDecimal(c.length) + ")" else c.sqlType
  }

  /** The label of a column's row: its printed type, then " NULL" unless it
      has the NOT NULL tag, " (PK)" when it has the primary tag and " (FK)"
      when it has a foreign reference. */
  function Label(c: ColumnV): string
  {
    var nullable := if NotNull in c.constraints then Base(c) else Base(c) + " NULL";
    var primary := if Primary in c.constraints then nullable + " (PK)" else nullable;
    if |c.refs| > 0 then primary + " (FK)" else primary
  }

  /** The three markers a label may end with. */
  function Markers(nullable: bool, primary: bool, foreign: bool): string
  {
    (if nullable then " NULL" else "") + (if primary then " (PK)" else "") + (if foreign then " (FK)" else "")
  }

  lemma LabelIsBaseAndMarkers(c: ColumnV)
    ensures Label(c) == Base(c) + Markers(NotNull !in c.constraints, Primary in c.constraints, |c.refs| > 0)
  {
  }

  /** Whether `m` ends with the marker `t`, and what is left without it. */
  function StripMarker(m: string, t: string): (r: (bool, string))
    ensures r.0 ==> r.1 + t == m
    ensures !r.0 ==> r.1 == m
  {
    if |m| >= |t| && m[|m| - |t|..] == t then
      assert m[..|m| - |t|] + m[|m| - |t|..] == m;
      (true, m[..|m| - |t|])
    else (false, m)
  }

  /** Reads the markers back, from the end. */
  function MarkerFlags(m: string): (bool, bool, bool)
  {
    var (foreign, m1) := StripMarker(m, " (FK)");
    var (primary, m2) := StripMarker(m1, " (PK)");
    (m2 == " NULL", primary, foreign)
  }

  /** No marker is another. */
  lemma MarkersDistinct()
    ensures " NULL" != " (PK)" && " NULL" != " (FK)" && " (PK)" != " (FK)"
  {
    assert " NULL"[1] == 'N';
    assert " (PK)"[1] == '(' && " (PK)"[2] == 'P';
    assert " (FK)"[1] == '(' && " (FK)"[2] == 'F';
  }

  /** A marker at the end is read and removed. */
  lemma StripMarkerHit(x: string, t: string)
    ensures StripMarker(x + t, t) == (true, x)
  {
    assert (x + t)[|x + t| - |t|..] == t;
    assert (x + t)[..|x + t| - |t|] == x;
  }

  /** A different marker of the same width at the end is left alone. */
  lemma StripMarkerMiss(x: string, u: string, t: string)
    requires |u| == |t| && u != t
    ensures StripMarker(x + u, t) == (false, x + u)
  {
    assert (x + u)[|x + u| - |t|..] == u;
  }

  /** The markers can be read back. */
  lemma MarkersRoundTrip(nullable: bool, primary: bool, foreign: bool)
    ensures MarkerFlags(Markers(nullable, primary, foreign)) == (nullable, primary, foreign)
  {
    var a := if nullable then " NULL" else "";
    var m1 := a + (if primary then " (PK)" else "");
    MarkersDistinct();
    // The foreign marker is read, leaving m1.
    if foreign {
      assert Markers(nullable, primary, foreign) == m1 + " (FK)";
      StripMarkerHit(m1, " (FK)");
    } else if primary {
      assert Markers(nullable, primary, foreign) == a + " (PK)";
      StripMarkerMiss(a, " (PK)", " (FK)");
    } else if nullable {
      assert Markers(nullable, primary, foreign) == "" + " NULL";
      StripMarkerMiss("", " NULL", " (FK)");
    } else {
      assert Markers(nullable, primary, foreign) == "";
    }
    // The primary marker is read, leaving a.
    if primary {
      StripMarkerHit(a, " (PK)");
    } else if nullable {
      assert m1 == "" + " NULL";
      StripMarkerMiss("", " NULL", " (PK)");
    } else {
      assert m1 == "";
    }
  }

  /** Two rows of the same printed type have the same label only when they
      agree on nullability, on being a primary key and on having a foreign
      reference: the label shows each of the three. */
  lemma LabelShowsFlags(c1: ColumnV, c2: ColumnV)
    requires Base(c1) == Base(c2) && Label(c1) == Label(c2)
    ensures (NotNull in c1.constraints <==> NotNull in c2.constraints)
    ensures (Primary in c1.constraints <==> Primary in c2.constraints)
    ensures (|c1.refs| > 0 <==> |c2.refs| > 0)
  {
    var b := Base(c1);
    var m1 := Markers(NotNull !in c1.constraints, Primary in c1.constraints, |c1.refs| > 0);
    var m2 := Markers(NotNull !in c2.constraints, Primary in c2.constraints, |c2.refs| > 0);
    LabelIsBaseAndMarkers(c1);
    LabelIsBaseAndMarkers(c2);
    assert (b + m1)[|b|..] == m1 && (b + m2)[|b|..] == m2;
    MarkersRoundTrip(NotNull !in c1.constraints, Primary in c1.constraints, |c1.refs| > 0);
    MarkersRoundTrip(NotNull !in c2.constraints, Primary in c2.constraints, |c2.refs| > 0);
  }

  /** The label of a column object, built the way the program builds it. */
  method ColumnLabel(c: Column) returns (columnType: string)
    ensures columnType == Label(c.Value())
  {
    columnType := c.sqlType;
    if c.length > 0 {
      columnType := c.sqlType + "(" + NatToDecimal(c.length) + ")";
    }
    var notNull := Contains(c.constraints, NotNull);
    if !notNull {
      columnType := columnType + " NULL";
    }
    var primary := Contains(c.constraints, Primary);
    if primary {
      columnType := columnType + " (PK)";
    }
    if |c.foreignKeyReferences| > 0 {
      columnType := columnType + " (FK)";
    }
  }

  /** The column an edge points to: the lookup finds the referenced table's
      column of the reference's name, and falls back on that same name, so
      the result is always the reference's own column. */
  method ResolveReferencedColumn(schema: Schema, ref: RefV) returns (referencedColumnName: string)
    ensures referencedColumnName == ref.column
  {
    referencedColumnName := "";
    var tables := schema.tables;
    for i := 0 to |tables|
      invariant referencedColumnName == ""
    {
      var t := tables[i];
      if t.name == ref.table {
        var cols := t.columns;
        for j := 0 to |cols|
          invariant referencedColumnName == ""
        {
          if cols[j].name == ref.column {
            referencedColumnName := cols[j].name;
            break;
          }
        }
        break;
      }
    }
    if referencedColumnName == "" {
      referencedColumnName := ref.column;
    }
  }

  /** The edges of one column, one per foreign reference. */
  method EmitReferences(schema: Schema, g: Engine, src: string, refs: seq<RefV>) returns (ok: bool)
    modifies g`log
    ensures Ran(g.accepts, old(g.log), g.log, ok, EdgeOps(src, refs))
  {
    ghost var l0 := g.log;
    ghost var done: seq<Op> := [];
    assert l0 + done == l0 && refs[0..] == refs;
    for k := 0 to |refs|
      invariant Ran(g.accepts, l0, g.log, true, done)
      invariant EdgeOps(src, refs) == done + EdgeOps(src, refs[k..])
    {
      var ref := refs[k];
      var referencedColumnName := ResolveReferencedColumn(schema, ref);
      ghost var op := Edge(src, ref.table + "." + referencedColumnName);
      ghost var rest := EdgeOps(src, refs[k + 1..]);
      EdgeOpsAt(src, refs, k);
      ghost var mid := g.log;
      ok := g.CreateEdge(src, ref.table + "." + referencedColumnName);
      RanOne(g.accepts, mid, op);
      RanStep(g.accepts, l0, mid, g.log, ok, EdgeOps(src, refs), done, [op], rest);
      if !ok {
        return;
      }
      done := done + [op];
    }
    assert refs[|refs|..] == [] && done + [] == done;
    return true;
  }

  /** A column's row: its label, then its edges. */
  method EmitColumn(schema: Schema, g: Engine, tname: string, c: Column) returns (ok: bool)
    modifies g`log
    ensures Ran(g.accepts, old(g.log), g.log, ok, RowOps(tname, old(c.Value()), Label))
  {
    var columnType := ColumnLabel(c);
    var path := tname + "." + c.name;
    ghost var l0 := g.log;
    ok := g.Set(path, columnType);
    RanOne(g.accepts, l0, Op.Set(path, columnType));
    if !ok {
      RanStop(g.accepts, l0, g.log, [Op.Set(path, columnType)], EdgeOps(path, c.foreignKeyReferences));
      return;
    }
    ghost var l1 := g.log;
    ok := EmitReferences(schema, g, path, c.foreignKeyReferences);
    RanThen(g.accepts, l0, l1, g.log, ok, [Op.Set(path, columnType)], EdgeOps(path, c.foreignKeyReferences));
  }

  /** The rows of a table, in column order. */
  method EmitColumns(schema: Schema, g: Engine, tname: string, cols: seq<Column>) returns (ok: bool)
    modifies g`log
    ensures Ran(g.accepts, old(g.log), g.log, ok, ColumnsOps(tname, old(ColumnValues(cols)), Label))
  {
    ghost var cv := ColumnValues(cols);
    ghost var l0 := g.log;
    ghost var done: seq<Op> := [];
    assert l0 + done == l0 && cv[0..] == cv;
    for j := 0 to |cols|
      invariant Ran(g.accepts, l0, g.log, true, done)
      invariant ColumnsOps(tname, cv, Label) == done + ColumnsOps(tname, cv[j..], Label)
    {
      ghost var row := RowOps(tname, cols[j].Value(), Label);
      ghost var rest := ColumnsOps(tname, cv[j + 1..], Label);
      ColumnsOpsAt(tname, cv, Label, j);
      ghost var mid := g.log;
      ok := EmitColumn(schema, g, tname, cols[j]);
      RanStep(g.accepts, l0, mid, g.log, ok, ColumnsOps(tname, cv, Label), done, row, rest);
      if !ok {
        return;
      }
      done := done + row;
    }
    assert cv[|cols|..] == [] && done + [] == done;
    return true;
  }

  /** A table: its node, the node's shape, then its rows. */
  method EmitTable(schema: Schema, g: Engine, t: Table) returns (ok: bool)
    modifies g`log
    ensures Ran(g.accepts, old(g.log), g.log, ok, Block(old(t.Value()), g.namer(old(g.log), old(t.name)), Label))
  {
    ghost var rows := ColumnsOps(t.name, ColumnValues(t.columns), Label);
    ghost var l0 := g.log;
    var newKey;
    newKey, ok := g.Create(t.name);
    RanOne(g.accepts, l0, Op.Create(t.name));
    ghost var shape := Op.Set(newKey + ".shape", Shape);
    if !ok {
      RanStop(g.accepts, l0, g.log, [Op.Create(t.name)], [shape] + rows);
      assert [Op.Create(t.name)] + ([shape] + rows) == [Op.Create(t.name), shape] + rows;
      return;
    }
    ghost var l1 := g.log;
    ok := g.Set(newKey + ".shape", Shape);
    RanOne(g.accepts, l1, shape);
    RanThen(g.accepts, l0, l1, g.log, ok, [Op.Create(t.name)], [shape]);
    assert [Op.Create(t.name)] + [shape] == [Op.Create(t.name), shape];
    if !ok {
      RanStop(g.accepts, l0, g.log, [Op.Create(t.name), shape], rows);
      return;
    }
    ghost var l2 := g.log;
    ok := EmitColumns(schema, g, t.name, t.columns);
    RanThen(g.accepts, l0, l2, g.log, ok, [Op.Create(t.name), shape], rows);
  }

  /** The diagram of a schema: the engine is given the plan of the schema,
      table by table, until it rejects an operation, which is reported as
      the failure of the whole synthesis. */
  method TransformGraph(schema: Schema, g: Engine) returns (r: Outcome<DiagramError>)
    modifies g`log
    ensures var t := Run(g.accepts, old(g.log), Plan(old(schema.Value()), Label, g.namer, old(g.log)));
      g.log == old(g.log) + t.emitted && r == (if t.ok then Pass else Fail(EngineFailure))
  {
    ghost var ts := schema.Value();
    ghost var l0 := g.log;
    ghost var plan := Plan(ts, Label, g.namer, l0);
    ghost var done: seq<Op> := [];
    assert l0 + done == l0 && ts[0..] == ts;
    var tables := schema.tables;
    for i := 0 to |tables|
      invariant Ran(g.accepts, l0, g.log, true, done)
      invariant plan == done + Plan(ts[i..], Label, g.namer, g.log)
    {
      assert ts[i] == tables[i].Value();
      ghost var l1 := g.log;
      ghost var b := Block(ts[i], g.namer(l1, ts[i].name), Label);
      ghost var rest := Plan(ts[i + 1..], Label, g.namer, l1 + b);
      PlanAt(ts, Label, g.namer, l1, i);
      var ok := EmitTable(schema, g, tables[i]);
      RanStep(g.accepts, l0, l1, g.log, ok, plan, done, b, rest);
      if !ok {
        return Fail(EngineFailure);
      }
      done := done + b;
    }
    assert ts[|tables|..] == [] && done + [] == done;
    assert Ran(g.accepts, l0, g.log, true, plan);
    return Pass;
  }
}
