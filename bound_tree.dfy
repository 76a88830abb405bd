/** An abstract model of the compiler's symbols, diagnostics and bound trees,
    as far as the synthesized entry points use them. Member lookup, use-site
    diagnostics and the binder are data or function values supplied by the
    caller; nothing here models how the compiler computes them. */
module BoundTree {
  import opened Wrappers

  /** The `SpecialType` tag of a type; only the tags the entry points test. */
  datatype SpecialType = NotSpecial | SystemVoid | SystemObject | SystemInt32

  datatype TypeSymbol =
    | NamedType(name: string, specialType: SpecialType)
    | ArrayType(elementType: TypeSymbol)
    | ErrorType(name: string)
  {
    predicate IsErrorType() { ErrorType? }

    /** `SpecialType` of the type: arrays and error types carry none. */
    function SpecialTypeOf(): SpecialType {
      if NamedType? then specialType else NotSpecial
    }

    predicate IsVoid() { SpecialTypeOf() == SystemVoid }
  }

  datatype RefKind = RefNone | Ref | Out | RefReadOnly

  datatype ParameterSymbol = ParameterSymbol(name: string, paramType: TypeSymbol, ordinal: nat, refKind: RefKind)

  datatype MethodSymbol = MethodSymbol(
    name: string,
    containingType: TypeSymbol,
    parameters: seq<ParameterSymbol>,
    returnType: TypeSymbol)
  {
    function ParameterCount(): nat { |parameters| }
  }

  /** A member returned by `GetMembers(name)`: a method, or any other kind of symbol. */
  datatype Member = MethodMember(symbol: MethodSymbol) | OtherMember(name: string)

  datatype Location = NoLocation | SourceLocation(path: string, position: nat)

  datatype ErrorCode = MissingPredefinedMember | UseSite(id: nat)

  datatype DiagnosticArgument = TypeArgument(symbol: TypeSymbol) | NameArgument(name: string)

  datatype Diagnostic = Diagnostic(code: ErrorCode, location: Location, arguments: seq<DiagnosticArgument>)

  /** The number of `ERR_MissingPredefinedMember` records in a diagnostic bag. */
  function CountMissingMember(ds: seq<Diagnostic>): nat {
    if ds == [] then 0
    else (if ds[|ds| - 1].code == MissingPredefinedMember then 1 else 0) + CountMissingMember(ds[..|ds| - 1])
  }

  lemma {:induction false} CountMissingMemberAppend(a: seq<Diagnostic>, b: seq<Diagnostic>)
    ensures CountMissingMember(a + b) == CountMissingMember(a) + CountMissingMember(b)
    decreases |b|
  {
    if b != [] {
      assert (a + b)[..|a + b| - 1] == a + b[..|b| - 1];
      CountMissingMemberAppend(a, b[..|b| - 1]);
    } else {
      assert a + b == a;
    }
  }

  /** The parts of a compilation the entry points consult. */
  datatype Compilation = Compilation(
    isSubmission: bool,
    objectType: TypeSymbol,     // GetSpecialType(System_Object)
    voidType: TypeSymbol,       // GetSpecialType(System_Void)
    taskType: TypeSymbol,       // GetWellKnownType(System_Threading_Tasks_Task); an error type when absent
    members: map<(TypeSymbol, string), seq<Member>>,
    useSiteDiagnostics: map<TypeSymbol, nat>)
  {
    /** The special types carry their tags. */
    predicate Valid() {
      objectType.SpecialTypeOf() == SystemObject && voidType.SpecialTypeOf() == SystemVoid
    }

    /** `type.GetMembers(name)`, in the order the symbol table returns them. */
    function GetMembers(t: TypeSymbol, name: string): seq<Member> {
      if (t, name) in members then members[(t, name)] else []
    }

    function CreateArrayTypeSymbol(elementType: TypeSymbol): TypeSymbol {
      ArrayType(elementType)
    }

    /** `ReportUseSiteDiagnostics`: appends the symbol's use-site diagnostic, if any, at no location. */
    function ReportUseSiteDiagnostics(t: TypeSymbol, diagnostics: seq<Diagnostic>): (r: seq<Diagnostic>)
      ensures CountMissingMember(r) == CountMissingMember(diagnostics)
      ensures t in useSiteDiagnostics ==> r == diagnostics + [Diagnostic(UseSite(useSiteDiagnostics[t]), NoLocation, [])]
      ensures t !in useSiteDiagnostics ==> r == diagnostics
    {
      if t in useSiteDiagnostics then
        var d := Diagnostic(UseSite(useSiteDiagnostics[t]), NoLocation, []);
        assert (diagnostics + [d])[..|diagnostics|] == diagnostics;
        diagnostics + [d]
      else diagnostics
    }
  }

  datatype SynthesizedLocalKind = LoweringTemp

  datatype LocalSymbol = SynthesizedLocal(localType: TypeSymbol, kind: SynthesizedLocalKind)

  /** Bound expressions; every node records its type and its `WasCompilerGenerated` flag. */
  datatype BoundExpression =
    | BoundCall(receiverOpt: Option<BoundExpression>, calledMethod: MethodSymbol, arguments: seq<BoundExpression>,
                exprType: TypeSymbol, wasCompilerGenerated: bool)
    | BoundParameter(parameter: ParameterSymbol, exprType: TypeSymbol, wasCompilerGenerated: bool)
    | BoundLocal(local: LocalSymbol, exprType: TypeSymbol, wasCompilerGenerated: bool)
    | BoundObjectCreation(creationConstructor: MethodSymbol, arguments: seq<BoundExpression>,
                          exprType: TypeSymbol, wasCompilerGenerated: bool)
    | BoundAssignment(left: BoundExpression, right: BoundExpression, exprType: TypeSymbol, wasCompilerGenerated: bool)

  datatype BoundStatement =
    | BoundExpressionStatement(expression: BoundExpression, wasCompilerGenerated: bool)
    | BoundReturnStatement(refKind: RefKind, expressionOpt: Option<BoundExpression>, wasCompilerGenerated: bool)

  datatype BoundBlock = BoundBlock(locals: seq<LocalSymbol>, statements: seq<BoundStatement>, wasCompilerGenerated: bool)

  /** Every node of the expression is flagged as compiler generated. */
  predicate ExpressionGenerated(e: BoundExpression) {
    e.wasCompilerGenerated &&
    match e
    case BoundCall(receiverOpt, _, arguments, _, _) =>
      (receiverOpt.Some? ==> ExpressionGenerated(receiverOpt.value)) &&
      forall a :: a in arguments ==> ExpressionGenerated(a)
    case BoundObjectCreation(_, arguments, _, _) => forall a :: a in arguments ==> ExpressionGenerated(a)
    case BoundAssignment(left, right, _, _) => ExpressionGenerated(left) && ExpressionGenerated(right)
    case _ => true
  }

  /** Every local the expression reads or writes is declared in `locals`. */
  predicate LocalsIn(e: BoundExpression, locals: seq<LocalSymbol>) {
    match e
    case BoundCall(receiverOpt, _, arguments, _, _) =>
      (receiverOpt.Some? ==> LocalsIn(receiverOpt.value, locals)) &&
      forall a :: a in arguments ==> LocalsIn(a, locals)
    case BoundParameter(_, _, _) => true
    case BoundLocal(local, _, _) => local in locals
    case BoundObjectCreation(_, arguments, _, _) => forall a :: a in arguments ==> LocalsIn(a, locals)
    case BoundAssignment(left, right, _, _) => LocalsIn(left, locals) && LocalsIn(right, locals)
  }

  /** Every parameter the expression reads is one of `parameters`. */
  predicate ParametersIn(e: BoundExpression, parameters: seq<ParameterSymbol>) {
    match e
    case BoundCall(receiverOpt, _, arguments, _, _) =>
      (receiverOpt.Some? ==> ParametersIn(receiverOpt.value, parameters)) &&
      forall a :: a in arguments ==> ParametersIn(a, parameters)
    case BoundParameter(parameter, _, _) => parameter in parameters
    case BoundLocal(_, _, _) => true
    case BoundObjectCreation(_, arguments, _, _) => forall a :: a in arguments ==> ParametersIn(a, parameters)
    case BoundAssignment(left, right, _, _) => ParametersIn(left, parameters) && ParametersIn(right, parameters)
  }

  function StatementExpressions(s: BoundStatement): seq<BoundExpression> {
    match s
    case BoundExpressionStatement(e, _) => [e]
    case BoundReturnStatement(_, eOpt, _) => if eOpt.Some? then [eOpt.value] else []
  }

  /** The block is closed: it uses only its own locals and the given parameters. */
  predicate WellScoped(b: BoundBlock, parameters: seq<ParameterSymbol>) {
    forall s, e :: s in b.statements && e in StatementExpressions(s) ==>
      LocalsIn(e, b.locals) && ParametersIn(e, parameters)
  }

  /** The block, its statements and every expression inside them are compiler generated. */
  predicate BlockGenerated(b: BoundBlock) {
    b.wasCompilerGenerated &&
    forall s :: s in b.statements ==>
      s.wasCompilerGenerated && forall e :: e in StatementExpressions(s) ==> ExpressionGenerated(e)
  }

  /** The block has exactly one exit, its last statement, and that exit agrees with
      the declared return type: no value for `void`, a value of exactly that type otherwise. */
  predicate ReturnsAgree(b: BoundBlock, returnType: TypeSymbol) {
    |b.statements| > 0 &&
    (forall k :: 0 <= k < |b.statements| - 1 ==> b.statements[k].BoundExpressionStatement?) &&
    var last := b.statements[|b.statements| - 1];
    last.BoundReturnStatement? && last.refKind == RefNone &&
    (returnType.IsVoid() <==> last.expressionOpt.None?) &&
    (last.expressionOpt.Some? ==> last.expressionOpt.value.exprType == returnType)
  }
}
