/**
 The abstract syntax the engine executes: one record per Go struct of internal/base. A pointer
 field that may be nil is an `Option`; an operator field that may be empty is a string.
 */
module Ast {
  import opened Values

  datatype Constant = Constant(value: Value)

  datatype MapVar = MapVar(name: string, intkey: int, strkey: string, varkey: string)

  /** FunctionCall, MethodCall and ThreeLevelCall have the same two fields. */
  datatype Call = Call(name: string, args: Option<Args>)

  datatype Args = Args(argList: seq<Arg>)

  datatype Arg = Arg(
    constant: Option<Constant>,
    variable: string,
    functionCall: Option<Call>,
    methodCall: Option<Call>,
    threeLevelCall: Option<Call>,
    mapVar: Option<MapVar>,
    expression: Option<Expression>)

  datatype ExpressionAtom = ExpressionAtom(
    variable: string,
    constant: Option<Constant>,
    functionCall: Option<Call>,
    methodCall: Option<Call>,
    threeLevelCall: Option<Call>,
    mapVar: Option<MapVar>)

  datatype MathExpression = MathExpression(
    left: Option<MathExpression>,
    pmOperator: string,
    mdOperator: string,
    right: Option<MathExpression>,
    atom: Option<ExpressionAtom>)

  datatype Expression = Expression(
    left: Option<Expression>,
    right: Option<Expression>,
    atom: Option<ExpressionAtom>,
    math: Option<MathExpression>,
    logicalOperator: string,
    comparisonOperator: string,
    notOperator: string)

  datatype Assignment = Assignment(
    variable: string,
    mapVar: Option<MapVar>,
    assignOperator: string,
    math: Option<MathExpression>,
    expression: Option<Expression>)

  datatype ReturnStatement = ReturnStatement(expression: Option<Expression>)

  datatype Statements = Statements(list: seq<Statement>, ret: Option<ReturnStatement>)

  datatype IfStmt = IfStmt(
    expression: Option<Expression>,
    statements: Option<Statements>,
    elseIfs: seq<ElseIfStmt>,
    elseStmt: Option<ElseStmt>)

  datatype ElseIfStmt = ElseIfStmt(expression: Option<Expression>, statements: Option<Statements>)

  datatype ElseStmt = ElseStmt(statements: Option<Statements>)

  datatype ForStmt = ForStmt(
    expression: Option<Expression>,
    statements: Option<Statements>,
    assignments: seq<Assignment>)

  datatype ForRangeStmt = ForRangeStmt(statements: Option<Statements>, keyName: string, name: string)

  datatype ConcStatement = ConcStatement(
    assignments: seq<Assignment>,
    functionCalls: seq<Call>,
    methodCalls: seq<Call>,
    threeLevelCalls: seq<Call>)

  datatype Statement = Statement(
    ifStmt: Option<IfStmt>,
    methodCall: Option<Call>,
    functionCall: Option<Call>,
    threeLevelCall: Option<Call>,
    assignment: Option<Assignment>,
    concStatement: Option<ConcStatement>,
    forStmt: Option<ForStmt>,
    isBreak: bool,
    forRangeStmt: Option<ForRangeStmt>,
    isContinue: bool)

  datatype RuleContent = RuleContent(statements: Option<Statements>)

  datatype RuleEntity = RuleEntity(
    ruleName: string,
    salience: int,
    ruleDescription: string,
    ruleContent: Option<RuleContent>)
}
