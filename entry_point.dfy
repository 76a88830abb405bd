/** The compiler-synthesized entry points: a `<Main>` that forwards to an
    `async Main`, a `<Main>` that runs a script, and a `<Factory>` that builds
    an interactive submission. The three variants form a closed sum type;
    their constructors and `CreateBody` build immutable bound trees. */
module SynthesizedEntryPoint {
  import opened Wrappers
  import opened BoundTree

  const MainName: string := "<Main>"
  const FactoryName: string := "<Factory>"
  const GetAwaiterName: string := "GetAwaiter"
  const GetResultName: string := "GetResult"
  const SubmissionArrayName: string := "submissionArray"

  datatype Accessibility = Private | Protected | Internal | Public
  datatype MethodKind = Ordinary
  datatype TypeParameterSymbol = TypeParameterSymbol(name: string)
  datatype SecurityAttribute = SecurityAttribute(name: string)
  /** `ExceptionUtilities.Unreachable`, thrown by members that synthetic code never supports. */
  datatype Unreachable = Unreachable

  datatype EntryPoint =
    | AsyncForwardEntryPoint(containingType: TypeSymbol, returnType: TypeSymbol, userMain: MethodSymbol,
                             parameters: seq<ParameterSymbol>, getAwaiterGetResultCall: BoundExpression)
    | ScriptEntryPoint(containingType: TypeSymbol, returnType: TypeSymbol,
                       getAwaiterMethod: Option<MethodSymbol>, getResultMethod: Option<MethodSymbol>)
    | SubmissionEntryPoint(containingType: TypeSymbol, returnType: TypeSymbol, parameters: seq<ParameterSymbol>)
  {
    /** What the constructors establish and `CreateBody` relies on. */
    predicate WellFormed() {
      match this
      case AsyncForwardEntryPoint(_, rt, _, ps, call) => |ps| <= 1 && rt == call.exprType
      case ScriptEntryPoint(_, rt, _, _) => rt.IsVoid()
      case SubmissionEntryPoint(_, rt, ps) =>
        !rt.IsVoid() && |ps| == 1 && ps[0].name == SubmissionArrayName && ps[0].ordinal == 0 && ps[0].refKind == RefNone
    }

    // The method facade shared by all three variants.

    function Name(): string { if SubmissionEntryPoint? then FactoryName else MainName }
    function Parameters(): seq<ParameterSymbol> { if ScriptEntryPoint? then [] else parameters }
    function ContainingSymbol(): TypeSymbol { containingType }
    function ReturnType(): TypeSymbol { returnType }
    predicate ReturnsVoid() { returnType.SpecialTypeOf() == SystemVoid }
    function DeclaredAccessibility(): Accessibility { Private }
    function MethodKind(): MethodKind { Ordinary }
    function RefKind(): RefKind { RefNone }
    function Arity(): nat { 0 }
    function TypeParameters(): seq<TypeParameterSymbol> { [] }
    function TypeArguments(): seq<TypeSymbol> { [] }
    function Locations(): seq<Location> { [] }
    function ExplicitInterfaceImplementations(): seq<MethodSymbol> { [] }
    function GetAppliedConditionalSymbols(): seq<string> { [] }
    predicate IsStatic() { true }
    predicate IsImplicitlyDeclared() { true }
    predicate HasSpecialName() { true }
    predicate GenerateDebugInfo() { false }
    predicate IsVirtual() { false }
    predicate IsAbstract() { false }
    predicate IsOverride() { false }
    predicate IsSealed() { false }
    predicate IsExtern() { false }
    predicate IsAsync() { false }
    predicate IsVararg() { false }
    predicate IsExtensionMethod() { false }
    predicate HidesBaseMethodsByName() { false }
    predicate IsExplicitInterfaceImplementation() { false }
    predicate HasDeclarativeSecurity() { false }
    predicate RequiresSecurityObject() { false }

    function CalculateLocalSyntaxOffset(localPosition: int): Result<int, Unreachable> { Failure(Unreachable) }
    function GetSecurityInformation(): Result<seq<SecurityAttribute>, Unreachable> { Failure(Unreachable) }
  }

  /** A character that may appear in a plain C# identifier. */
  predicate IsIdentifierChar(ch: char) {
    ('a' <= ch <= 'z') || ('A' <= ch <= 'Z') || ('0' <= ch <= '9') || ch == '_'
  }

  /** The facade is the same for every variant: private, static, implicitly
      declared, non-generic, never virtual, abstract, override, extern or async,
      with no locations, and source-position queries fail as unreachable. */
  lemma FacadeIsUniform(ep: EntryPoint)
    ensures ep.DeclaredAccessibility() == Private && ep.IsStatic() && ep.IsImplicitlyDeclared()
    ensures ep.Arity() == 0 && ep.TypeParameters() == [] && ep.TypeArguments() == [] && ep.Locations() == []
    ensures !ep.IsVirtual() && !ep.IsAbstract() && !ep.IsOverride() && !ep.IsExtern() && !ep.IsAsync()
    ensures ep.MethodKind() == Ordinary && ep.RefKind() == RefNone
    ensures forall p :: ep.CalculateLocalSyntaxOffset(p).Failure?
    ensures ep.GetSecurityInformation().Failure?
  {
  }

  /** The name tells `<Factory>` (submissions) from `<Main>` (the other two), and
      neither name is a plain identifier, so it cannot collide with user code. */
  lemma ReservedNames(ep: EntryPoint)
    ensures ep.Name() == FactoryName <==> ep.SubmissionEntryPoint?
    ensures ep.Name() == MainName <==> !ep.SubmissionEntryPoint?
    ensures |ep.Name()| > 0 && !IsIdentifierChar(ep.Name()[0])
  {
  }

  function MissingMemberDiagnostic(location: Location, t: TypeSymbol, name: string): Diagnostic {
    Diagnostic(MissingPredefinedMember, location, [TypeArgument(t), NameArgument(name)])
  }

  /** `GetMembers(name).SingleOrDefault() as MethodSymbol`, for at most one member. */
  function SoleMethod(members: seq<Member>): Option<MethodSymbol>
    requires |members| <= 1
  {
    if |members| == 1 && members[0].MethodMember? then Some(members[0].symbol) else None
  }

  /** Looks up the single method `methodName` on `t`. When there is none, or the one
      member is not a method, appends one missing-member diagnostic (at `NoLocation`
      unless a location is given) and yields no method. Two or more members make
      `SingleOrDefault` throw, so callers must exclude that. */
  function GetRequiredMethod(c: Compilation, t: TypeSymbol, methodName: string, diagnostics: seq<Diagnostic>,
                             location: Option<Location>): (r: (Option<MethodSymbol>, seq<Diagnostic>))
    requires |c.GetMembers(t, methodName)| <= 1
    ensures r.0.Some? ==> c.GetMembers(t, methodName) == [MethodMember(r.0.value)] && r.1 == diagnostics
    ensures r.0.None? <==> c.GetMembers(t, methodName) == [] || c.GetMembers(t, methodName)[0].OtherMember?
    ensures r.0.None? ==>
      r.1 == diagnostics + [MissingMemberDiagnostic(if location.Some? then location.value else NoLocation, t, methodName)]
  {
    var loc := if location.Some? then location.value else NoLocation;
    var found := SoleMethod(c.GetMembers(t, methodName));
    if found.None? then (found, diagnostics + [MissingMemberDiagnostic(loc, t, methodName)])
    else (found, diagnostics)
  }

  /** A call of `callee` on `receiver` with no arguments, typed by the method's return type. */
  function CreateParameterlessCall(receiver: BoundExpression, callee: MethodSymbol): (r: BoundExpression)
    ensures r.BoundCall? && r.calledMethod == callee && r.arguments == [] && r.receiverOpt == Some(receiver)
    ensures r.exprType == callee.returnType && r.wasCompilerGenerated
  {
    BoundCall(Some(receiver), callee, [], callee.returnType, true)
  }

  /** The lookups `Create` performs are unambiguous (at most one member each), so
      `SingleOrDefault` does not throw; and a submission's initializer is not void. */
  predicate CreateRequirements(c: Compilation, initializerMethod: MethodSymbol) {
    if c.isSubmission then
      !initializerMethod.returnType.IsVoid()
    else
      !c.taskType.IsErrorType() ==>
        var awaiters := c.GetMembers(c.taskType, GetAwaiterName);
        |awaiters| <= 1 &&
        (SoleMethod(awaiters).Some? ==> |c.GetMembers(SoleMethod(awaiters).value.returnType, GetResultName)| <= 1)
  }

  function SubmissionParameter(arrayType: TypeSymbol): ParameterSymbol {
    ParameterSymbol(SubmissionArrayName, arrayType, 0, RefNone)
  }

  /** Chooses the variant for an interactive initializer: a submission compilation gets
      a `<Factory>(object[] submissionArray)` returning the initializer's type; any
      other gets a void script `<Main>()`, with `GetAwaiter` looked up on `Task`
      (unless `Task` is an error type) and `GetResult` on the awaiter's return type
      (only if `GetAwaiter` was found). Diagnostics are only appended. */
  function Create(c: Compilation, initializerMethod: MethodSymbol, diagnostics: seq<Diagnostic>): (r: (EntryPoint, seq<Diagnostic>))
    requires c.Valid()
    requires CreateRequirements(c, initializerMethod)
    ensures r.0.WellFormed() && r.0.containingType == initializerMethod.containingType
    ensures diagnostics <= r.1
    ensures c.isSubmission ==>
      r.0.SubmissionEntryPoint? && r.0.Name() == FactoryName && r.0.returnType == initializerMethod.returnType &&
      r.0.Parameters() == [SubmissionParameter(ArrayType(c.objectType))] && !r.0.ReturnsVoid()
    ensures !c.isSubmission ==>
      r.0.ScriptEntryPoint? && r.0.Name() == MainName && r.0.returnType == c.voidType &&
      r.0.ReturnsVoid() && r.0.Parameters() == []
  {
    var containingType := initializerMethod.containingType;
    if c.isSubmission then
      var submissionArrayType := c.CreateArrayTypeSymbol(c.objectType);
      var diagnostics1 := c.ReportUseSiteDiagnostics(submissionArrayType, diagnostics);
      (SubmissionEntryPoint(containingType, initializerMethod.returnType, [SubmissionParameter(submissionArrayType)]),
       diagnostics1)
    else
      var taskType := c.taskType;
      var diagnostics1 := c.ReportUseSiteDiagnostics(taskType, diagnostics);
      var (getAwaiterMethod, diagnostics2) :=
        if taskType.IsErrorType() then (None, diagnostics1)
        else GetRequiredMethod(c, taskType, GetAwaiterName, diagnostics1, None);
      var (getResultMethod, diagnostics3) :=
        if getAwaiterMethod.None? then (None, diagnostics2)
        else GetRequiredMethod(c, getAwaiterMethod.value.returnType, GetResultName, diagnostics2, None);
      (ScriptEntryPoint(containingType, c.voidType, getAwaiterMethod, getResultMethod), diagnostics3)
  }

  /** The await chain of a script entry point: `GetAwaiter` comes from `Task`, and
      `GetResult` from the awaiter method's return type; an error-typed `Task` skips
      both lookups; the chain adds at most one missing-member diagnostic, exactly
      when `Task` is usable but one of the two methods is missing, and that
      diagnostic names the type the failing lookup ran on. With no such diagnostic,
      both methods are known and the script body can be built. */
  lemma {:induction false} AwaitChainDiagnostics(c: Compilation, initializerMethod: MethodSymbol, diagnostics: seq<Diagnostic>)
    requires c.Valid() && !c.isSubmission
    requires CreateRequirements(c, initializerMethod)
    ensures var (ep, ds) := Create(c, initializerMethod, diagnostics);
      && (c.taskType.IsErrorType() ==> ep.getAwaiterMethod.None? && ep.getResultMethod.None?)
      && (ep.getAwaiterMethod.Some? ==> c.GetMembers(c.taskType, GetAwaiterName) == [MethodMember(ep.getAwaiterMethod.value)])
      && (ep.getResultMethod.Some? ==>
            ep.getAwaiterMethod.Some? &&
            c.GetMembers(ep.getAwaiterMethod.value.returnType, GetResultName) == [MethodMember(ep.getResultMethod.value)])
      && CountMissingMember(ds) <= CountMissingMember(diagnostics) + 1
      && (CountMissingMember(ds) == CountMissingMember(diagnostics) + 1 <==>
            !c.taskType.IsErrorType() && ep.getResultMethod.None?)
      && (!c.taskType.IsErrorType() && ep.getAwaiterMethod.None? ==>
            ds[|ds| - 1] == MissingMemberDiagnostic(NoLocation, c.taskType, GetAwaiterName))
      && (ep.getAwaiterMethod.Some? && ep.getResultMethod.None? ==>
            ds[|ds| - 1] == MissingMemberDiagnostic(NoLocation, ep.getAwaiterMethod.value.returnType, GetResultName))
      && (!c.taskType.IsErrorType() && CountMissingMember(ds) == CountMissingMember(diagnostics) ==>
            ep.getAwaiterMethod.Some? && ep.getResultMethod.Some?)
  {
    var r := Create(c, initializerMethod, diagnostics);
    var d1 := c.ReportUseSiteDiagnostics(c.taskType, diagnostics);
    if c.taskType.IsErrorType() {
      assert r.0.getAwaiterMethod.None? && r.0.getResultMethod.None? && r.1 == d1;
    } else {
      var (aw, d2) := GetRequiredMethod(c, c.taskType, GetAwaiterName, d1, None);
      if aw.None? {
        var d := MissingMemberDiagnostic(NoLocation, c.taskType, GetAwaiterName);
        assert r.0.getAwaiterMethod.None? && r.0.getResultMethod.None? && r.1 == d2 == d1 + [d];
        CountMissingMemberAppend(d1, [d]);
        assert CountMissingMember([d]) == 1;
      } else {
        var (gr, d3) := GetRequiredMethod(c, aw.value.returnType, GetResultName, d2, None);
        assert r.0.getAwaiterMethod == aw && r.0.getResultMethod == gr && r.1 == d3 && d2 == d1;
        if gr.None? {
          var d := MissingMemberDiagnostic(NoLocation, aw.value.returnType, GetResultName);
          assert d3 == d2 + [d];
          CountMissingMemberAppend(d2, [d]);
          assert CountMissingMember([d]) == 1;
        } else {
          assert d3 == d2;
        }
      }
    }
  }

  /** What the binder's `GetAwaitableExpressionInfo` yields for an expression: whether
      it succeeded (the constructor ignores this), the `GetAwaiter().GetResult()` call
      it built, and the diagnostics it reported. */
  datatype AwaitableInfo = AwaitableInfo(success: bool, getAwaiterGetResultCall: BoundExpression, diagnostics: seq<Diagnostic>)

  /** `SynthesizedParameterSymbol.DeriveParameters`: one copy of each parameter of the
      user's Main, with the same name, type, ordinal and ref kind. */
  function DeriveParameters(userMain: MethodSymbol): (r: seq<ParameterSymbol>)
    ensures |r| == userMain.ParameterCount()
    ensures forall k :: 0 <= k < |r| ==>
      r[k].name == userMain.parameters[k].name && r[k].paramType == userMain.parameters[k].paramType &&
      r[k].ordinal == userMain.parameters[k].ordinal && r[k].refKind == userMain.parameters[k].refKind
  {
    seq(|userMain.parameters|, k requires 0 <= k < |userMain.parameters| =>
      var p := userMain.parameters[k]; ParameterSymbol(p.name, p.paramType, p.ordinal, p.refKind))
  }

  /** `Main(args)` or `Main()`: the user's Main called with the forwarder's own
      parameters, in order. */
  function UserMainInvocation(userMain: MethodSymbol, parameters: seq<ParameterSymbol>): (r: BoundExpression)
    ensures r.BoundCall? && r.receiverOpt.None? && r.calledMethod == userMain && r.exprType == userMain.returnType
    ensures |r.arguments| == |parameters|
    ensures forall k :: 0 <= k < |parameters| ==> r.arguments[k].BoundParameter? && r.arguments[k].parameter == parameters[k]
    ensures ParametersIn(r, parameters)
  {
    var arguments := seq(|parameters|, k requires 0 <= k < |parameters| =>
      BoundParameter(parameters[k], parameters[k].paramType, false));
    var r := BoundCall(None, userMain, arguments, userMain.returnType, true);
    assert forall a :: a in arguments ==> ParametersIn(a, parameters);
    r
  }

  /** The `AsyncForwardEntryPoint` constructor: copies the user Main's (zero or one)
      parameters, asks the binder to await the call of the user Main with them, and
      takes the type of the resulting `GetAwaiter().GetResult()` call as its return
      type; the binder's diagnostics are appended. */
  function NewAsyncForwardEntryPoint(binder: BoundExpression -> AwaitableInfo, diagnostics: seq<Diagnostic>,
                                     containingType: TypeSymbol, userMain: MethodSymbol): (r: (EntryPoint, seq<Diagnostic>))
    requires userMain.ParameterCount() == 0 || userMain.ParameterCount() == 1
    ensures r.0.AsyncForwardEntryPoint? && r.0.WellFormed() && r.0.Name() == MainName
    ensures r.0.containingType == containingType && r.0.userMain == userMain
    ensures r.0.Parameters() == DeriveParameters(userMain)
    ensures |r.0.Parameters()| == userMain.ParameterCount()
    ensures forall k :: 0 <= k < |r.0.Parameters()| ==>
      r.0.Parameters()[k].name == userMain.parameters[k].name && r.0.Parameters()[k].paramType == userMain.parameters[k].paramType
    ensures var info := binder(UserMainInvocation(userMain, r.0.Parameters()));
      r.0.getAwaiterGetResultCall == info.getAwaiterGetResultCall &&
      r.0.returnType == info.getAwaiterGetResultCall.exprType &&
      (r.0.ReturnsVoid() <==> info.getAwaiterGetResultCall.exprType.SpecialTypeOf() == SystemVoid) &&
      r.1 == diagnostics + info.diagnostics
  {
    var parameters := DeriveParameters(userMain);
    var info := binder(UserMainInvocation(userMain, parameters));
    (AsyncForwardEntryPoint(containingType, info.getAwaiterGetResultCall.exprType, userMain, parameters, info.getAwaiterGetResultCall),
     diagnostics + info.diagnostics)
  }

  /** The forwarder's body, with no locals: for a void result the awaited call as a
      statement and then `return;`; otherwise `return <awaited call>;`, a return that
      is not flagged as compiler generated. */
  function CreateAsyncForwardBody(ep: EntryPoint): (r: BoundBlock)
    requires ep.AsyncForwardEntryPoint? && ep.WellFormed()
    ensures r.locals == [] && r.wasCompilerGenerated
    ensures ReturnsAgree(r, ep.returnType)
    ensures |r.statements| == (if ep.ReturnsVoid() then 2 else 1)
    ensures ep.ReturnsVoid() ==> r.statements[0] == BoundExpressionStatement(ep.getAwaiterGetResultCall, true)
    ensures !ep.ReturnsVoid() ==> r.statements[0].expressionOpt == Some(ep.getAwaiterGetResultCall)
    ensures (forall k :: 0 <= k < |r.statements| ==> r.statements[k].wasCompilerGenerated) <==> ep.ReturnsVoid()
  {
    if ep.ReturnsVoid() then
      BoundBlock([], [BoundExpressionStatement(ep.getAwaiterGetResultCall, true), BoundReturnStatement(RefNone, None, true)], true)
    else
      BoundBlock([], [BoundReturnStatement(RefNone, Some(ep.getAwaiterGetResultCall), false)], true)
  }

  /** What `GetScriptConstructor()` and `GetScriptInitializer()` return for the containing type. */
  datatype ScriptMembers = ScriptMembers(scriptConstructor: MethodSymbol, initializer: MethodSymbol)

  /** `e` is `receiver` followed by parameterless calls of `methods`, in order. */
  predicate CallChain(e: BoundExpression, receiver: BoundExpression, methods: seq<MethodSymbol>)
    decreases |methods|
  {
    if methods == [] then e == receiver
    else
      e.BoundCall? && e.calledMethod == methods[|methods| - 1] && e.arguments == [] && e.receiverOpt.Some? &&
      CallChain(e.receiverOpt.value, receiver, methods[..|methods| - 1])
  }

  /** `var script = new Script(); script.<Initialize>().GetAwaiter().GetResult(); return;`:
      one local of the script type, three statements, every node compiler generated. */
  function CreateScriptBody(ep: EntryPoint, members: ScriptMembers): (r: BoundBlock)
    requires ep.ScriptEntryPoint? && ep.WellFormed()
    requires ep.getAwaiterMethod.Some? && ep.getResultMethod.Some?
    requires members.scriptConstructor.ParameterCount() == 0 && members.initializer.ParameterCount() == 0
    ensures |r.locals| == 1 && r.locals[0].localType == ep.containingType && |r.statements| == 3
    ensures ReturnsAgree(r, ep.returnType) && WellScoped(r, ep.Parameters()) && BlockGenerated(r)
    ensures var script := BoundLocal(r.locals[0], ep.containingType, true);
      && r.statements[0].BoundExpressionStatement?
      && r.statements[0].expression.BoundAssignment?
      && r.statements[0].expression.left == script
      && r.statements[0].expression.right.BoundObjectCreation?
      && r.statements[0].expression.right.creationConstructor == members.scriptConstructor
      && r.statements[0].expression.right.arguments == []
      && r.statements[1].BoundExpressionStatement?
      && CallChain(r.statements[1].expression, script,
                   [members.initializer, ep.getAwaiterMethod.value, ep.getResultMethod.value])
      && r.statements[1].expression.exprType == ep.getResultMethod.value.returnType
  {
    var local := SynthesizedLocal(ep.containingType, LoweringTemp);
    var scriptLocal := BoundLocal(local, ep.containingType, true);
    var creation := BoundObjectCreation(members.scriptConstructor, [], members.scriptConstructor.containingType, true);
    var assignment := BoundExpressionStatement(BoundAssignment(scriptLocal, creation, ep.containingType, true), true);
    var initialize := CreateParameterlessCall(scriptLocal, members.initializer);
    var awaiter := CreateParameterlessCall(initialize, ep.getAwaiterMethod.value);
    var result := CreateParameterlessCall(awaiter, ep.getResultMethod.value);
    assert CallChain(initialize, scriptLocal, [members.initializer]);
    assert [members.initializer, ep.getAwaiterMethod.value][..1] == [members.initializer];
    assert CallChain(awaiter, scriptLocal, [members.initializer, ep.getAwaiterMethod.value]);
    assert [members.initializer, ep.getAwaiterMethod.value, ep.getResultMethod.value][..2]
        == [members.initializer, ep.getAwaiterMethod.value];
    var locals := [local];
    assert ExpressionGenerated(creation) && LocalsIn(creation, locals) && ParametersIn(creation, []);
    assert ExpressionGenerated(initialize) && LocalsIn(initialize, locals) && ParametersIn(initialize, []);
    assert ExpressionGenerated(awaiter) && LocalsIn(awaiter, locals) && ParametersIn(awaiter, []);
    assert ExpressionGenerated(result) && LocalsIn(result, locals) && ParametersIn(result, []);
    BoundBlock([local], [assignment, BoundExpressionStatement(result, true), BoundReturnStatement(RefNone, None, true)], true)
  }

  /** `var submission = new Submission#N(submissionArray); return submission.<Initialize>();`:
      one local of the submission type, two statements, the parameter passed as the only
      constructor argument, and a returned value of the entry point's return type. */
  function CreateSubmissionBody(ep: EntryPoint, members: ScriptMembers): (r: BoundBlock)
    requires ep.SubmissionEntryPoint? && ep.WellFormed()
    requires members.scriptConstructor.ParameterCount() == 1 && members.initializer.ParameterCount() == 0
    requires members.initializer.returnType == ep.returnType
    ensures |r.locals| == 1 && r.locals[0].localType == ep.containingType && |r.statements| == 2
    ensures ReturnsAgree(r, ep.returnType) && WellScoped(r, ep.Parameters()) && BlockGenerated(r)
    ensures var submission := BoundLocal(r.locals[0], ep.containingType, true);
      && r.statements[0].BoundExpressionStatement?
      && r.statements[0].expression.BoundAssignment?
      && r.statements[0].expression.left == submission
      && r.statements[0].expression.right.BoundObjectCreation?
      && r.statements[0].expression.right.creationConstructor == members.scriptConstructor
      && r.statements[0].expression.right.exprType == ep.containingType
      && |r.statements[0].expression.right.arguments| == 1
      && r.statements[0].expression.right.arguments[0].BoundParameter?
      && r.statements[0].expression.right.arguments[0].parameter == ep.Parameters()[0]
      && r.statements[1].expressionOpt.Some?
      && CallChain(r.statements[1].expressionOpt.value, submission, [members.initializer])
  {
    var submissionArrayParameter := BoundParameter(ep.parameters[0], ep.parameters[0].paramType, true);
    var local := SynthesizedLocal(ep.containingType, LoweringTemp);
    var submissionLocal := BoundLocal(local, ep.containingType, true);
    var creation := BoundObjectCreation(members.scriptConstructor, [submissionArrayParameter], ep.containingType, true);
    var submissionAssignment := BoundExpressionStatement(BoundAssignment(submissionLocal, creation, ep.containingType, true), true);
    var initializeResult := CreateParameterlessCall(submissionLocal, members.initializer);
    assert CallChain(initializeResult, submissionLocal, [members.initializer]);
    assert ExpressionGenerated(creation) && LocalsIn(creation, [local]) && ParametersIn(creation, ep.parameters);
    assert ExpressionGenerated(initializeResult) && LocalsIn(initializeResult, [local]) && ParametersIn(initializeResult, ep.parameters);
    var returnStatement := BoundReturnStatement(RefNone, Some(initializeResult), true);
    BoundBlock([local], [submissionAssignment, returnStatement], true)
  }

  /** What each variant's `CreateBody` asserts before building. */
  predicate BodyPrerequisites(ep: EntryPoint, members: ScriptMembers) {
    ep.WellFormed() &&
    match ep
    case AsyncForwardEntryPoint(_, _, _, _, _) => true
    case ScriptEntryPoint(_, _, getAwaiter, getResult) =>
      getAwaiter.Some? && getResult.Some? &&
      members.scriptConstructor.ParameterCount() == 0 && members.initializer.ParameterCount() == 0
    case SubmissionEntryPoint(_, returnType, _) =>
      members.scriptConstructor.ParameterCount() == 1 && members.initializer.ParameterCount() == 0 &&
      members.initializer.returnType == returnType
  }

  /** The abstract `CreateBody`, dispatched on the variant. Every body has one exit, its
      last statement, and returns exactly a value of the declared return type (or
      none, for void); the script and submission bodies are closed and fully
      compiler generated. */
  function CreateBody(ep: EntryPoint, members: ScriptMembers): (r: BoundBlock)
    requires BodyPrerequisites(ep, members)
    ensures ReturnsAgree(r, ep.returnType) && r.wasCompilerGenerated
    ensures ep.AsyncForwardEntryPoint? ==> r.locals == [] && |r.statements| == (if ep.ReturnsVoid() then 2 else 1)
    ensures !ep.AsyncForwardEntryPoint? ==>
      WellScoped(r, ep.Parameters()) && BlockGenerated(r) && |r.locals| == 1 && r.locals[0].localType == ep.containingType
    ensures ep.ScriptEntryPoint? ==> |r.statements| == 3
    ensures ep.SubmissionEntryPoint? ==> |r.statements| == 2
  {
    match ep
    case AsyncForwardEntryPoint(_, _, _, _, _) => CreateAsyncForwardBody(ep)
    case ScriptEntryPoint(_, _, _, _) => CreateScriptBody(ep, members)
    case SubmissionEntryPoint(_, _, _) => CreateSubmissionBody(ep, members)
  }

  /** A script compilation whose `Task` type is usable and whose await chain reports no
      missing member gets a void `<Main>` whose body has one local and three statements. */
  lemma ScriptEntryPointBuilds(c: Compilation, initializerMethod: MethodSymbol, diagnostics: seq<Diagnostic>, members: ScriptMembers)
    requires c.Valid() && !c.isSubmission && !c.taskType.IsErrorType()
    requires CreateRequirements(c, initializerMethod)
    requires members.scriptConstructor.ParameterCount() == 0 && members.initializer.ParameterCount() == 0
    requires CountMissingMember(Create(c, initializerMethod, diagnostics).1) == CountMissingMember(diagnostics)
    ensures BodyPrerequisites(Create(c, initializerMethod, diagnostics).0, members)
    ensures var b := CreateBody(Create(c, initializerMethod, diagnostics).0, members);
      |b.locals| == 1 && |b.statements| == 3 && b.statements[2] == BoundReturnStatement(RefNone, None, true)
  {
    AwaitChainDiagnostics(c, initializerMethod, diagnostics);
  }
}
