/** The part of the parse tree produced by pg_query (the PostgreSQL parser
    library) that the schema extraction reads. Every dynamic type switch of
    the program is a `match` on `Node`; the variants it never inspects are
    folded into `OtherNode`. Field names follow the parser's own. */
module PgQuery {

  /** The parser's 32-bit integer constant (`Integer.Ival`). */
  newtype int32 = x: int | -0x8000_0000 <= x < 0x8000_0000

  datatype RangeVar = RangeVar(relname: string)

  datatype ConstrType = ConstrPrimary | ConstrForeign | ConstrNotNull | ConstrOther

  datatype AlterTableType = AtAddConstraint | AtOther

  datatype ConstVal = IntegerVal(ival: int32) | OtherVal

  datatype AConst = AConst(val: ConstVal)

  datatype TypeName = TypeName(names: seq<Node>, typmods: seq<Node>)

  datatype ColumnDef = ColumnDef(colname: string, typeName: TypeName, constraints: seq<Node>)

  /** `pktable` is only read for foreign keys, where the parser always sets it. */
  datatype Constraint = Constraint(
    contype: ConstrType,
    pktable: RangeVar,
    pkAttrs: seq<Node>,
    fkAttrs: seq<Node>,
    keys: seq<Node>)

  datatype CreateStmt = CreateStmt(relation: RangeVar, tableElts: seq<Node>)

  datatype AlterTableCmd = AlterTableCmd(subtype: AlterTableType, def: Node)

  datatype AlterTableStmt = AlterTableStmt(relation: RangeVar, cmds: seq<Node>)

  datatype Node =
    | CreateStmtNode(createStmt: CreateStmt)
    | AlterTableStmtNode(alterTableStmt: AlterTableStmt)
    | AlterTableCmdNode(alterTableCmd: AlterTableCmd)
    | ColumnDefNode(columnDef: ColumnDef)
    | ConstraintNode(constraint: Constraint)
    | StringNode(sval: string)
    | AConstNode(aConst: AConst)
    | OtherNode

  /** The statements of a parsed script, in source order. */
  datatype ParseResult = ParseResult(stmts: seq<Node>)

  /** The `sval` of every String node of `ns`, in order; the program skips
      every other kind of node wherever it expects a name. */
  function StringVals(ns: seq<Node>): (r: seq<string>)
    ensures |r| <= |ns|
    decreases |ns|
  {
    if ns == [] then []
    else
      var init := StringVals(ns[..|ns| - 1]);
      match ns[|ns| - 1]
      case StringNode(s) => init + [s]
      case _ => init
  }

  /** One more node: its `sval` joins when it is a String node. */
  lemma StringValsSnoc(ns: seq<Node>, i: nat)
    requires i < |ns|
    ensures ns[i].StringNode? ==> StringVals(ns[..i + 1]) == StringVals(ns[..i]) + [ns[i].sval]
    ensures !ns[i].StringNode? ==> StringVals(ns[..i + 1]) == StringVals(ns[..i])
  {
    assert ns[..i + 1][..i] == ns[..i];
  }

  /** The last element of `s`, or `dflt` when `s` is empty (a Go variable
      overwritten in a loop and left at its zero value if never assigned). */
  function LastOr<T>(s: seq<T>, dflt: T): T
  {
    if s == [] then dflt else s[|s| - 1]
  }
}
