/**
 * Models TomLonghurst.AllOf/SourceGenerator/AllOfGenerator.cs: the text of
 * the generated file. For every identified interface I (once per long name
 * per generator instance) it writes an interface AllOf_I, nested in it a
 * class AllOf_I_Impl, and in the class one method per method of I that
 * forwards the call to every item.
 */
module Generator {
  import opened Wrappers
  import opened Exceptions
  import opened Symbols
  import opened Strings
  import opened TextWriter
  import opened NamespaceHelper

  /** The return type written for a method that returns void. */
  const VoidKeyword: string := "void"

  /** GetRef: the C# modifier for a passing mode; any other RefKind value is out of range. */
  function GetRef(refKind: RefKind): (r: Result<string, Exception>)
    ensures r.Success? <==> 0 <= refKind.value <= 3
    ensures r.Failure? ==> r.error == ArgumentOutOfRangeException("refKind", refKind.value)
  {
    if refKind == RefNone then Success("")
    else if refKind == RefRef then Success("ref")
    else if refKind == RefOut then Success("out")
    else if refKind == RefIn then Success("in")
    else Failure(ArgumentOutOfRangeException("refKind", refKind.value))
  }

  /** The passing mode a parameter written with the given modifier has in C#. */
  function RefKindOfModifier(modifier: string): Option<RefKind>
  {
    if modifier == "" then Some(RefNone)
    else if modifier == "ref" then Some(RefRef)
    else if modifier == "out" then Some(RefOut)
    else if modifier == "in" then Some(RefIn)
    else None
  }

  /** The modifier GetRef writes declares the same passing mode again, so a forwarded argument keeps it. */
  lemma {:induction false} GetRefRoundTrip(refKind: RefKind)
    requires GetRef(refKind).Success?
    ensures RefKindOfModifier(GetRef(refKind).value) == Some(refKind)
  {
  }

  /** One entry of parametersWithType: modifier, custom modifiers, type and name, trimmed. */
  function ParameterDeclaration(p: Parameter): (r: Result<string, Exception>)
    ensures r.Success? <==> GetRef(p.refKind).Success?
    ensures r.Failure? ==> r.error == GetRef(p.refKind).error
  {
    match GetRef(p.refKind)
    case Failure(e) => Failure(e)
    case Success(modifier) =>
      Success(Trim(modifier + " " + Join(" ", p.refCustomModifiers) + " " + Join(" ", p.customModifiers) + " " + p.typeName + " " + p.name))
  }

  /** One entry of the forwarded argument list: modifier and name, trimmed. */
  function Argument(p: Parameter): (r: Result<string, Exception>)
    ensures r.Success? <==> GetRef(p.refKind).Success?
    ensures r.Failure? ==> r.error == GetRef(p.refKind).error
  {
    match GetRef(p.refKind)
    case Failure(e) => Failure(e)
    case Success(modifier) => Success(Trim(modifier + " " + p.name))
  }

  /**
   * A parameter's declaration ends with its type and its name, whatever
   * modifiers precede them.
   */
  lemma {:induction false} DeclarationEndsWithTypeAndName(p: Parameter)
    requires GetRef(p.refKind).Success?
    requires IsTrimmed(p.typeName) && p.typeName != [] && IsTrimmed(p.name) && p.name != []
    ensures var tail := p.typeName + " " + p.name;
      |tail| <= |ParameterDeclaration(p).value| && ParameterDeclaration(p).value[|ParameterDeclaration(p).value| - |tail|..] == tail
  {
    var tail := p.typeName + " " + p.name;
    var modifier := GetRef(p.refKind).value;
    var head := modifier + " " + Join(" ", p.refCustomModifiers) + " " + Join(" ", p.customModifiers) + " ";
    var s := head + tail;
    assert s == modifier + " " + Join(" ", p.refCustomModifiers) + " " + Join(" ", p.customModifiers) + " " + p.typeName + " " + p.name;
    assert s[|s| - 1] == p.name[|p.name| - 1];
    var start := TrimStart(s);
    assert s[|head|] == p.typeName[0];
    assert |start| >= |tail|;
    assert start[|start| - |tail|..] == tail;
    assert start[|start| - 1] == p.name[|p.name| - 1];
    assert TrimEnd(start) == start;
  }

  /** A forwarded argument is the parameter's name, preceded by its modifier when it has one. */
  lemma {:induction false} ArgumentForwardsName(p: Parameter)
    requires GetRef(p.refKind).Success?
    requires IsTrimmed(p.name) && p.name != []
    ensures p.refKind == RefNone ==> Argument(p) == Success(p.name)
    ensures p.refKind != RefNone ==> Argument(p) == Success(GetRef(p.refKind).value + " " + p.name)
  {
    var modifier := GetRef(p.refKind).value;
    if p.refKind == RefNone {
      TrimDropsLeadingSpace(p.name);
    } else {
      TrimKeepsTrimmedEnds(modifier, p.name);
    }
  }

  lemma {:induction false} TrimDropsLeadingSpace(x: string)
    requires IsTrimmed(x) && x != []
    ensures Trim("" + " " + x) == x
  {
    var s := "" + " " + x;
    assert s[1..] == x;
    assert TrimStart(x) == x;
    assert TrimStart(s) == x;
    TrimmedIsFixed(x);
  }

  lemma {:induction false} TrimKeepsTrimmedEnds(a: string, x: string)
    requires a != [] && !IsWhiteSpace(a[0]) && IsTrimmed(x) && x != []
    ensures Trim(a + " " + x) == a + " " + x
  {
    var s := a + " " + x;
    assert s[0] == a[0];
    assert s[|s| - 1] == x[|x| - 1];
    TrimmedIsFixed(s);
  }

  /** Every parameter has a passing mode GetRef knows. */
  predicate KnownRefKinds(ps: seq<Parameter>)
  {
    forall i :: 0 <= i < |ps| ==> GetRef(ps[i].refKind).Success?
  }

  /** The index of the first parameter whose passing mode GetRef rejects. */
  function FirstUnknownRefKind(ps: seq<Parameter>): (i: nat)
    requires !KnownRefKinds(ps)
    ensures i < |ps| && GetRef(ps[i].refKind).Failure?
    ensures forall j :: 0 <= j < i ==> GetRef(ps[j].refKind).Success?
  {
    if GetRef(ps[0].refKind).Failure? then 0
    else
      var k := FirstUnknownRefKind(ps[1..]);
      k + 1
  }

  /**
   * parametersWithType, as string.Join enumerates it: every declaration in
   * order, or the exception of the first parameter GetRef rejects.
   */
  function Declarations(ps: seq<Parameter>): (r: Result<seq<string>, Exception>)
    ensures r.Success? <==> KnownRefKinds(ps)
  {
    if ps == [] then Success([])
    else match ParameterDeclaration(ps[0])
      case Failure(e) => Failure(e)
      case Success(first) =>
        match Declarations(ps[1..])
        case Failure(e) => Failure(e)
        case Success(rest) => Success([first] + rest)
  }

  /** The forwarded arguments of GenerateBody, as string.Join enumerates them. */
  function Arguments(ps: seq<Parameter>): (r: Result<seq<string>, Exception>)
    ensures r.Success? <==> KnownRefKinds(ps)
  {
    if ps == [] then Success([])
    else match Argument(ps[0])
      case Failure(e) => Failure(e)
      case Success(first) =>
        match Arguments(ps[1..])
        case Failure(e) => Failure(e)
        case Success(rest) => Success([first] + rest)
  }

  /**
   * The declarations are those of the parameters, one each and in order; the
   * exception is the one GetRef throws for the first parameter it rejects.
   */
  lemma {:induction false} DeclarationsEachParameter(ps: seq<Parameter>)
    ensures var r := Declarations(ps);
      && (r.Success? ==> |r.value| == |ps| && forall i :: 0 <= i < |ps| ==> Success(r.value[i]) == ParameterDeclaration(ps[i]))
      && (r.Failure? ==> r.error == GetRef(ps[FirstUnknownRefKind(ps)].refKind).error)
  {
    if KnownRefKinds(ps) {
      DeclarationsValues(ps);
    } else {
      DeclarationsError(ps);
    }
  }

  lemma {:induction false} DeclarationsValues(ps: seq<Parameter>)
    requires KnownRefKinds(ps)
    ensures |Declarations(ps).value| == |ps|
    ensures forall i :: 0 <= i < |ps| ==> Success(Declarations(ps).value[i]) == ParameterDeclaration(ps[i])
    decreases |ps|
  {
    if ps != [] {
      assert GetRef(ps[0].refKind).Success?;
      assert KnownRefKinds(ps[1..]) by {
        forall i | 0 <= i < |ps| - 1
          ensures GetRef(ps[1..][i].refKind).Success?
        {
          assert ps[1..][i] == ps[i + 1];
        }
      }
      DeclarationsValues(ps[1..]);
      var first := ParameterDeclaration(ps[0]).value;
      var rest := Declarations(ps[1..]).value;
      assert Declarations(ps) == Success([first] + rest);
      forall i | 0 <= i < |ps|
        ensures Success(Declarations(ps).value[i]) == ParameterDeclaration(ps[i])
      {
        if i > 0 {
          assert ps[i] == ps[1..][i - 1];
        }
      }
    }
  }

  lemma {:induction false} DeclarationsError(ps: seq<Parameter>)
    requires !KnownRefKinds(ps)
    ensures Declarations(ps).error == GetRef(ps[FirstUnknownRefKind(ps)].refKind).error
    decreases |ps|
  {
    var k := FirstUnknownRefKind(ps);
    if k > 0 {
      assert ps[1..][k - 1] == ps[k];
      DeclarationsError(ps[1..]);
      assert k == FirstUnknownRefKind(ps[1..]) + 1;
      assert Declarations(ps) == Declarations(ps[1..]);
    }
  }

  /**
   * The arguments are those of the parameters, one each and in order; the
   * exception is the one GetRef throws for the first parameter it rejects.
   */
  lemma {:induction false} ArgumentsEachParameter(ps: seq<Parameter>)
    ensures var r := Arguments(ps);
      && (r.Success? ==> |r.value| == |ps| && forall i :: 0 <= i < |ps| ==> Success(r.value[i]) == Argument(ps[i]))
      && (r.Failure? ==> r.error == GetRef(ps[FirstUnknownRefKind(ps)].refKind).error)
  {
    if KnownRefKinds(ps) {
      ArgumentsValues(ps);
    } else {
      ArgumentsError(ps);
    }
  }

  lemma {:induction false} ArgumentsValues(ps: seq<Parameter>)
    requires KnownRefKinds(ps)
    ensures |Arguments(ps).value| == |ps|
    ensures forall i :: 0 <= i < |ps| ==> Success(Arguments(ps).value[i]) == Argument(ps[i])
    decreases |ps|
  {
    if ps != [] {
      assert GetRef(ps[0].refKind).Success?;
      assert KnownRefKinds(ps[1..]) by {
        forall i | 0 <= i < |ps| - 1
          ensures GetRef(ps[1..][i].refKind).Success?
        {
          assert ps[1..][i] == ps[i + 1];
        }
      }
      ArgumentsValues(ps[1..]);
      var first := Argument(ps[0]).value;
      var rest := Arguments(ps[1..]).value;
      assert Arguments(ps) == Success([first] + rest);
      forall i | 0 <= i < |ps|
        ensures Success(Arguments(ps).value[i]) == Argument(ps[i])
      {
        if i > 0 {
          assert ps[i] == ps[1..][i - 1];
        }
      }
    }
  }

  lemma {:induction false} ArgumentsError(ps: seq<Parameter>)
    requires !KnownRefKinds(ps)
    ensures Arguments(ps).error == GetRef(ps[FirstUnknownRefKind(ps)].refKind).error
    decreases |ps|
  {
    var k := FirstUnknownRefKind(ps);
    if k > 0 {
      assert ps[1..][k - 1] == ps[k];
      ArgumentsError(ps[1..]);
      assert k == FirstUnknownRefKind(ps[1..]) + 1;
      assert Arguments(ps) == Arguments(ps[1..]);
    }
  }

  /** GetGenericType: the method's type parameters in angle brackets, or nothing. */
  function GetGenericType(m: Method): (r: string)
    ensures r == "" <==> m.typeParameters == []
  {
    if |m.typeParameters| == 0 then ""
    else "<" + Join(", ", m.typeParameters) + ">"
  }

  /** The type-parameter list written after a generic method's name names its type parameters, in order. */
  lemma {:induction false} GenericTypeRoundTrip(m: Method)
    requires m.typeParameters != []
    requires forall i :: 0 <= i < |m.typeParameters| ==> ',' !in m.typeParameters[i]
    ensures var g := GetGenericType(m);
      |g| >= 2 && g[0] == '<' && g[|g| - 1] == '>' && ParseList(g[1..|g| - 1]) == m.typeParameters
  {
    var g := GetGenericType(m);
    assert g[1..|g| - 1] == Join(", ", m.typeParameters);
    ParseListJoin(m.typeParameters);
  }

  /** The return type written in the signature: the keyword void, or the type's full name. */
  function ReturnTypeText(m: Method): (r: string)
    ensures m.ReturnsVoid() ==> r == VoidKeyword
    ensures !m.ReturnsVoid() ==> r == m.returnType
  {
    if m.ReturnsVoid() then VoidKeyword else m.returnType
  }

  /** The signature line of a forwarding method. */
  function Signature(m: Method, declarations: seq<string>): string
  {
    "public " + ReturnTypeText(m) + " " + m.name + GetGenericType(m) + "(" + Join(", ", declarations) + ")"
  }

  /** The call made on each item. */
  function Call(m: Method, arguments: seq<string>): string
  {
    "item." + m.name + "(" + Join(", ", arguments) + ")"
  }

  /** What a piece of the generator writes before it finishes or throws. */
  datatype Output = Output(lines: seq<string>, thrown: Option<Exception>)

  /** Writing next after prev, unless prev has thrown. */
  function After(prev: Output, next: Output): Output
  {
    if prev.thrown.Some? then prev else Output(prev.lines + next.lines, next.thrown)
  }

  /** Fixed text of the bodies GenerateBody writes. */
  const LoopHeader: string := "foreach (var item in Items)"
  const WhenAllOpen: string := "return Task.WhenAll(Items.Select(item => "
  const WhenAllClose: string := "));"
  const TasksOpen: string := "var tasks = Items.Select(item => "
  const TasksClose: string := ".AsTask());"
  const ValueTaskReturn: string := "return new ValueTask(Task.WhenAll(tasks));"

  /**
   * The void branch of GenerateBody: a loop over the items calling each one.
   * The arguments are enumerated only when the call line is written, so a
   * rejected parameter throws after the loop header and its brace.
   */
  function LoopBody(m: Method, arguments: Result<seq<string>, Exception>): Output
  {
    var head := [LoopHeader, "{"];
    match arguments
    case Failure(e) => Output(head, Some(e))
    case Success(a) => Output(head + [Call(m, a) + ";", "}"], None)
  }

  /** GenerateBody for a method returning Task: return Task.WhenAll of the calls. */
  function WhenAllBody(m: Method, arguments: Result<seq<string>, Exception>): Output
  {
    match arguments
    case Failure(e) => Output([], Some(e))
    case Success(a) => Output([WhenAllOpen + Call(m, a) + WhenAllClose], None)
  }

  /** The remaining branch of GenerateBody: a ValueTask over Task.WhenAll of the calls converted with AsTask. */
  function ValueTaskBody(m: Method, arguments: Result<seq<string>, Exception>): Output
  {
    match arguments
    case Failure(e) => Output([], Some(e))
    case Success(a) => Output([TasksOpen + Call(m, a) + TasksClose, ValueTaskReturn], None)
  }

  /**
   * GenerateBody: a void method calls every item in a loop; a Task method
   * returns Task.WhenAll of the calls; any other returns a ValueTask over
   * Task.WhenAll of the calls converted with AsTask.
   */
  function BodyOutput(m: Method): (out: Output)
    ensures out.thrown.Some? <==> !KnownRefKinds(m.parameters)
  {
    var arguments := Arguments(m.parameters);
    if m.ReturnsVoid() then LoopBody(m, arguments)
    else if m.returnType == TaskFullName then WhenAllBody(m, arguments)
    else ValueTaskBody(m, arguments)
  }

  /** A line of a documentation comment. */
  function DocLine(text: string): string
  {
    "/// " + text
  }

  /** The documentation reference to the enumerable of the interface's implementations. */
  function SeeEnumerable(shortName: string): string
  {
    "<see cref=\"IEnumerable{" + shortName + "}\"/>"
  }

  /** The documentation comment of a forwarding method. */
  function MethodDoc(shortName: string, m: Method): seq<string>
  {
    [DocLine("<summary>"),
     DocLine("Calls " + m.name + " on each item in the " + SeeEnumerable(shortName)),
     DocLine("</summary>")]
  }

  /** The signature line, or the exception enumerating the parameter declarations throws. */
  function SignatureLine(m: Method): (r: Result<string, Exception>)
    ensures r.Success? <==> KnownRefKinds(m.parameters)
  {
    match Declarations(m.parameters)
    case Failure(e) => Failure(e)
    case Success(declarations) => Success(Signature(m, declarations))
  }

  /**
   * A forwarding method from its parts: the documentation, then the signature
   * and the body in braces, then an empty line; writing stops at the first
   * exception.
   */
  function MethodText(doc: seq<string>, signature: Result<string, Exception>, body: Output): Output
  {
    match signature
    case Failure(e) => Output(doc, Some(e))
    case Success(line) =>
      if body.thrown.Some? then Output(doc + [line, "{"] + body.lines, body.thrown)
      else Output(doc + [line, "{"] + body.lines + ["}", ""], None)
  }

  /** One forwarding method: documentation, signature, and the body in braces, then an empty line. */
  function MethodOutput(shortName: string, m: Method): (out: Output)
    ensures out.thrown.Some? <==> !KnownRefKinds(m.parameters)
  {
    MethodText(MethodDoc(shortName, m), SignatureLine(m), BodyOutput(m))
  }

  /** MethodOutput when the declarations fail, and when they do not. */
  lemma {:induction false} MethodOutputCases(shortName: string, m: Method)
    ensures var out := MethodOutput(shortName, m);
      var declarations := Declarations(m.parameters);
      && (declarations.Failure? ==> out == Output(MethodDoc(shortName, m), Some(declarations.error)))
      && (declarations.Success? ==> BodyOutput(m).thrown.None? && out == Output(
            MethodDoc(shortName, m) + [Signature(m, declarations.value), "{"] + BodyOutput(m).lines + ["}", ""], None))
  {
  }

  /** The outputs from the i-th on, written in turn after acc until one throws. */
  function Run(outs: seq<Output>, i: nat, acc: Output): Output
    requires i <= |outs|
    decreases |outs| - i
  {
    if acc.thrown.Some? || i == |outs| then acc
    else Run(outs, i + 1, After(acc, outs[i]))
  }

  /** The output of each forwarding method, in the order of the interface's methods. */
  function MethodOutputs(shortName: string, ms: seq<Method>): (outs: seq<Output>)
    ensures |outs| == |ms|
    ensures forall j :: 0 <= j < |ms| ==> outs[j] == MethodOutput(shortName, ms[j])
  {
    seq(|ms|, j requires 0 <= j < |ms| => MethodOutput(shortName, ms[j]))
  }

  /** Fixed text of the interface's documentation comment. */
  const WrapperText: string := "A wrapper around an "
  const SameMethodsText: string := " with the same methods as "
  const CallingText: string := "<para>Calling a method on this interface will call the same method on each item in the "
  const RegisterText: string := "<para>Be sure to call .AddAllOfs() on your IServiceCollection to register this type</para>"

  /** The lines of an interface block before its forwarding methods. */
  function HeaderLines(t: NamedType): seq<string>
  {
    var shortName := t.shortName;
    var longName := t.longName;
    ["namespace " + t.containingNamespace,
     "{",
     DocLine("<summary>"),
     DocLine(WrapperText + SeeEnumerable(shortName) + SameMethodsText + shortName + "."),
     DocLine(CallingText + SeeEnumerable(shortName) + "</para>"),
     DocLine(RegisterText),
     DocLine("</summary>"),
     "public interface AllOf_" + shortName + " : AllOf<" + longName + ">, " + longName,
     "{",
     "private class AllOf_" + shortName + "_Impl : AllOfImpl<" + longName + ">, AllOf_" + shortName,
     "{",
     "public AllOf_" + shortName + "_Impl(IEnumerable<" + longName + "> items) : base(items)",
     "{",
     "}",
     "",
     "public override " + shortName + " OnEach() => this;"]
  }

  /** The lines that close the class, the interface and the namespace. */
  const FooterLines: seq<string> := ["}", "}", "}", ""]

  /** The block written for one identified interface. */
  function InterfaceOutput(d: IdentifiedAllOf): Output
  {
    var t := d.interfaceType;
    var methods := Run(MethodOutputs(t.shortName, d.methodsInInterface), 0, Output(HeaderLines(t), None));
    After(methods, Output(FooterLines, None))
  }

  /** A generated line that starts with a letter or '/' neither opens nor closes a block. */
  lemma {:induction false} PlainPrefixEffect(prefix: string, rest: string)
    requires prefix != [] && !IsWhiteSpace(prefix[0]) && prefix[0] != '{' && prefix[0] != '}'
    ensures !OpensBlock(prefix + rest) && !ClosesBlock(prefix + rest) && LineEffect(prefix + rest) == 0
  {
    var s := prefix + rest;
    assert s[0] == prefix[0];
    PlainLineEffect(s);
  }

  /** A line starting with a call on an item neither opens nor closes a block. */
  lemma {:induction false} CallLinePlain(m: Method, arguments: seq<string>, rest: string)
    ensures !OpensBlock(Call(m, arguments) + rest) && !ClosesBlock(Call(m, arguments) + rest)
    ensures LineEffect(Call(m, arguments) + rest) == 0
  {
    var call := Call(m, arguments);
    assert call[0] == 'i';
    PlainPrefixEffect(call, rest);
  }

  /** A signature line neither opens nor closes a block. */
  lemma {:induction false} SignatureLinePlain(m: Method, declarations: seq<string>)
    ensures !OpensBlock(Signature(m, declarations)) && !ClosesBlock(Signature(m, declarations))
    ensures LineEffect(Signature(m, declarations)) == 0
  {
    var signature := Signature(m, declarations);
    assert signature[0] == 'p';
    PlainLineEffect(signature);
  }

  /** A loop header, and one plain statement in braces. */
  lemma {:induction false} LoopBalanced(loop: string, statement: string)
    requires LineEffect(loop) == 0 && LineEffect(statement) == 0
    ensures Balanced([loop, "{", statement, "}"])
  {
    PlainLinesBalanced([statement]);
    BraceLineEffects();
    BalancedNest("{", [statement], "}");
    PlainLinesBalanced([loop]);
    BalancedAppend([loop], ["{"] + [statement] + ["}"]);
    assert [loop, "{", statement, "}"] == [loop] + (["{"] + [statement] + ["}"]);
  }

  /** Every body GenerateBody completes opens exactly the blocks it closes. */
  lemma {:induction false} BodyBalanced(m: Method)
    requires KnownRefKinds(m.parameters)
    ensures Balanced(BodyOutput(m).lines)
  {
    var call := Call(m, Arguments(m.parameters).value);
    if m.ReturnsVoid() {
      VoidBodyBalanced(m, call);
    } else if m.returnType == TaskFullName {
      TaskBodyBalanced(m, call);
    } else {
      ValueTaskBodyBalanced(m, call);
    }
  }

  lemma {:induction false} LoopHeaderEffect()
    ensures !OpensBlock(LoopHeader) && !ClosesBlock(LoopHeader) && LineEffect(LoopHeader) == 0
  {
    PlainLineEffect(LoopHeader);
  }

  lemma {:induction false} VoidBodyBalanced(m: Method, call: string)
    requires KnownRefKinds(m.parameters) && m.ReturnsVoid() && call == Call(m, Arguments(m.parameters).value)
    ensures Balanced(BodyOutput(m).lines)
  {
    var loop := LoopHeader;
    LoopHeaderEffect();
    PlainPrefixEffect(call, ";");
    LoopBalanced(loop, call + ";");
    assert BodyOutput(m).lines == [loop, "{"] + [call + ";", "}"];
    assert [loop, "{"] + [call + ";", "}"] == [loop, "{", call + ";", "}"];
  }

  lemma {:induction false} TaskBodyBalanced(m: Method, call: string)
    requires KnownRefKinds(m.parameters) && !m.ReturnsVoid() && m.returnType == TaskFullName
    requires call == Call(m, Arguments(m.parameters).value)
    ensures Balanced(BodyOutput(m).lines)
  {
    PlainPrefixEffect(WhenAllOpen, call + WhenAllClose);
    PlainLinesBalanced([WhenAllOpen + call + WhenAllClose]);
  }

  lemma {:induction false} ValueTaskBodyBalanced(m: Method, call: string)
    requires KnownRefKinds(m.parameters) && !m.ReturnsVoid() && m.returnType != TaskFullName
    requires call == Call(m, Arguments(m.parameters).value)
    ensures Balanced(BodyOutput(m).lines)
  {
    var lines := [TasksOpen + call + TasksClose, ValueTaskReturn];
    assert BodyOutput(m).lines == lines;
    PlainPrefixEffect(TasksOpen, call + TasksClose);
    PlainLineEffect(ValueTaskReturn);
    PlainLinesBalanced(lines);
  }

  lemma {:induction false} MethodDocPlain(shortName: string, m: Method)
    ensures forall i :: 0 <= i < 3 ==> LineEffect(MethodDoc(shortName, m)[i]) == 0
  {
    var doc := MethodDoc(shortName, m);
    PlainLineEffect(doc[0]);
    PlainLineEffect(doc[1]);
    PlainLineEffect(doc[2]);
  }

  /** Plain lines, then a balanced body in braces, then an empty line. */
  lemma {:induction false} BlockShapeBalanced(head: seq<string>, body: seq<string>)
    requires forall i :: 0 <= i < |head| ==> LineEffect(head[i]) == 0
    requires Balanced(body)
    ensures Balanced(head + ["{"] + body + ["}", ""])
  {
    BraceLineEffects();
    NestShapeBalanced(head, "{", body, "}", "");
  }

  lemma {:induction false} NestShapeBalanced(head: seq<string>, open: string, body: seq<string>, close: string, tail: string)
    requires forall i :: 0 <= i < |head| ==> LineEffect(head[i]) == 0
    requires LineEffect(open) == 1 && LineEffect(close) == -1 && LineEffect(tail) == 0
    requires Balanced(body)
    ensures Balanced(head + [open] + body + [close, tail])
  {
    PlainLinesBalanced(head);
    BalancedNest(open, body, close);
    PlainLinesBalanced([tail]);
    BalancedAppend(head, [open] + body + [close]);
    BalancedAppend(head + ([open] + body + [close]), [tail]);
    assert head + [open] + body + [close, tail] == head + ([open] + body + [close]) + [tail];
  }

  /** Every forwarding method GenerateSource completes opens exactly the blocks it closes. */
  lemma {:induction false} MethodBalanced(shortName: string, m: Method)
    requires KnownRefKinds(m.parameters)
    ensures Balanced(MethodOutput(shortName, m).lines)
  {
    var doc := MethodDoc(shortName, m);
    var signature := Signature(m, Declarations(m.parameters).value);
    var body := BodyOutput(m).lines;
    var head := doc + [signature];
    MethodHeadPlain(shortName, m, signature);
    BodyBalanced(m);
    BlockShapeBalanced(head, body);
    MethodOutputLines(shortName, m, head, body);
  }

  lemma {:induction false} MethodHeadPlain(shortName: string, m: Method, signature: string)
    requires KnownRefKinds(m.parameters) && signature == Signature(m, Declarations(m.parameters).value)
    ensures var head := MethodDoc(shortName, m) + [signature];
      forall i :: 0 <= i < |head| ==> LineEffect(head[i]) == 0
  {
    var doc := MethodDoc(shortName, m);
    MethodDocPlain(shortName, m);
    PlainLineEffect(signature);
    var head := doc + [signature];
    assert forall i :: 0 <= i < 3 ==> head[i] == doc[i];
  }

  lemma {:induction false} MethodOutputLines(shortName: string, m: Method, head: seq<string>, body: seq<string>)
    requires KnownRefKinds(m.parameters)
    requires head == MethodDoc(shortName, m) + [Signature(m, Declarations(m.parameters).value)]
    requires body == BodyOutput(m).lines
    ensures MethodOutput(shortName, m).lines == head + ["{"] + body + ["}", ""]
  {
    var doc := MethodDoc(shortName, m);
    var signature := Signature(m, Declarations(m.parameters).value);
    assert MethodOutput(shortName, m).lines == doc + [signature, "{"] + body + ["}", ""];
    assert doc + [signature, "{"] == head + ["{"];
  }

  /** A run of outputs that all complete and are balanced leaves what came before alone and is balanced. */
  lemma {:induction false} RunBalanced(outs: seq<Output>, i: nat, acc: Output)
    requires i <= |outs| && acc.thrown.None?
    requires forall j :: i <= j < |outs| ==> outs[j].thrown.None? && Balanced(outs[j].lines)
    ensures var r := Run(outs, i, acc);
      && r.thrown.None?
      && |acc.lines| <= |r.lines| && r.lines[..|acc.lines|] == acc.lines
      && Balanced(r.lines[|acc.lines|..])
    decreases |outs| - i
  {
    var r := Run(outs, i, acc);
    if i == |outs| {
      assert r.lines[|acc.lines|..] == [];
      PlainLinesBalanced([]);
    } else {
      var next := After(acc, outs[i]);
      assert next.lines == acc.lines + outs[i].lines;
      RunBalanced(outs, i + 1, next);
      assert r == Run(outs, i + 1, next);
      BalancedAfterPrefix(r.lines, acc.lines, outs[i].lines);
    }
  }

  /** Lines that start with a then a balanced b, and go on balanced, go on balanced after a. */
  lemma {:induction false} BalancedAfterPrefix(r: seq<string>, a: seq<string>, b: seq<string>)
    requires |a| + |b| <= |r| && r[..|a| + |b|] == a + b
    requires Balanced(b) && Balanced(r[|a| + |b|..])
    ensures r[..|a|] == a && Balanced(r[|a|..])
  {
    PrefixSplit(r, a, b);
    BalancedAppend(b, r[|a| + |b|..]);
  }

  /** A run throws exactly when one of its outputs does. */
  lemma {:induction false} RunThrows(outs: seq<Output>, i: nat, acc: Output)
    requires i <= |outs| && acc.thrown.None?
    ensures Run(outs, i, acc).thrown.Some? <==> exists j :: i <= j < |outs| && outs[j].thrown.Some?
    decreases |outs| - i
  {
    if i < |outs| && outs[i].thrown.None? {
      RunThrows(outs, i + 1, After(acc, outs[i]));
    }
  }

  /** The forwarding methods of an interface whose parameters GetRef all accepts complete, balanced. */
  lemma {:induction false} MethodsBalanced(shortName: string, ms: seq<Method>, acc: Output)
    requires acc.thrown.None?
    requires forall j :: 0 <= j < |ms| ==> KnownRefKinds(ms[j].parameters)
    ensures var r := Run(MethodOutputs(shortName, ms), 0, acc);
      && r.thrown.None?
      && |acc.lines| <= |r.lines| && r.lines[..|acc.lines|] == acc.lines
      && Balanced(r.lines[|acc.lines|..])
  {
    var outs := MethodOutputs(shortName, ms);
    forall j | 0 <= j < |ms|
      ensures outs[j].thrown.None? && Balanced(outs[j].lines)
    {
      MethodBalanced(shortName, ms[j]);
    }
    RunBalanced(outs, 0, acc);
  }

  /** Writing an interface's forwarding methods throws exactly when one has a passing mode GetRef rejects. */
  lemma {:induction false} MethodsThrow(shortName: string, ms: seq<Method>, acc: Output)
    requires acc.thrown.None?
    ensures Run(MethodOutputs(shortName, ms), 0, acc).thrown.Some? <==>
      exists j :: 0 <= j < |ms| && !KnownRefKinds(ms[j].parameters)
  {
    var outs := MethodOutputs(shortName, ms);
    RunThrows(outs, 0, acc);
    if exists j :: 0 <= j < |ms| && !KnownRefKinds(ms[j].parameters) {
      var j :| 0 <= j < |ms| && !KnownRefKinds(ms[j].parameters);
      assert outs[j].thrown.Some?;
    }
  }

  /**
   * The shape of an interface block: a namespace line, a block holding the
   * documentation and the interface line, and in it a block holding the class
   * line, and in that a block holding the constructor with its empty block,
   * two plain lines and the methods; then a trailing line.
   */
  lemma {:induction false} InterfaceShapeBalanced(
    namespaceLine: string, interfaceHead: seq<string>, classLine: string, constructorLine: string,
    classLines: seq<string>, methods: seq<string>, open: string, close: string, tail: string)
    requires LineEffect(namespaceLine) == 0 && LineEffect(classLine) == 0 && LineEffect(constructorLine) == 0
    requires forall i :: 0 <= i < |interfaceHead| ==> LineEffect(interfaceHead[i]) == 0
    requires forall i :: 0 <= i < |classLines| ==> LineEffect(classLines[i]) == 0
    requires LineEffect(open) == 1 && LineEffect(close) == -1 && LineEffect(tail) == 0
    requires Balanced(methods)
    ensures Balanced([namespaceLine, open] + interfaceHead + [open, classLine, open, constructorLine, open, close]
      + classLines + methods + [close, close, close, tail])
  {
    var classBody := [constructorLine, open, close] + classLines + methods;
    ClassBodyBalanced(constructorLine, classLines, methods, open, close);
    var interfaceBody := [classLine] + [open] + classBody + [close];
    WrapBalanced([classLine], classBody, open, close);
    var namespaceBody := interfaceHead + [open] + interfaceBody + [close];
    WrapBalanced(interfaceHead, interfaceBody, open, close);
    var block := [namespaceLine] + [open] + namespaceBody + [close];
    WrapBalanced([namespaceLine], namespaceBody, open, close);
    PlainLinesBalanced([tail]);
    BalancedAppend(block, [tail]);
    InterfaceShapeLines(namespaceLine, interfaceHead, classLine, constructorLine, classLines, methods, open, close, tail);
  }

  lemma {:induction false} InterfaceShapeLines(
    namespaceLine: string, interfaceHead: seq<string>, classLine: string, constructorLine: string,
    classLines: seq<string>, methods: seq<string>, open: string, close: string, tail: string)
    ensures [namespaceLine, open] + interfaceHead + [open, classLine, open, constructorLine, open, close]
      + classLines + methods + [close, close, close, tail]
      == [namespaceLine] + [open]
        + (interfaceHead + [open]
          + ([classLine] + [open] + ([constructorLine, open, close] + classLines + methods) + [close])
          + [close])
        + [close] + [tail]
  {
  }

  /** The constructor with its empty block, plain lines, then balanced methods. */
  lemma {:induction false} ClassBodyBalanced(constructorLine: string, classLines: seq<string>, methods: seq<string>, open: string, close: string)
    requires LineEffect(constructorLine) == 0
    requires forall i :: 0 <= i < |classLines| ==> LineEffect(classLines[i]) == 0
    requires LineEffect(open) == 1 && LineEffect(close) == -1
    requires Balanced(methods)
    ensures Balanced([constructorLine, open, close] + classLines + methods)
  {
    PlainLinesBalanced([]);
    WrapBalanced([constructorLine], [], open, close);
    assert [constructorLine] + [open] + [] + [close] == [constructorLine, open, close];
    PlainLinesBalanced(classLines);
    BalancedAppend([constructorLine, open, close], classLines);
    BalancedAppend([constructorLine, open, close] + classLines, methods);
  }

  /** Plain lines, then a balanced body between an opening and a closing line. */
  lemma {:induction false} WrapBalanced(head: seq<string>, body: seq<string>, open: string, close: string)
    requires forall i :: 0 <= i < |head| ==> LineEffect(head[i]) == 0
    requires LineEffect(open) == 1 && LineEffect(close) == -1
    requires Balanced(body)
    ensures Balanced(head + [open] + body + [close])
  {
    PlainLinesBalanced(head);
    BalancedNest(open, body, close);
    BalancedAppend(head, [open] + body + [close]);
    assert head + [open] + body + [close] == head + ([open] + body + [close]);
  }

  /** A line that neither opens nor closes a block. */
  predicate Plain(s: string)
  {
    !OpensBlock(s) && !ClosesBlock(s)
  }

  /**
   * Lines shaped like an interface block's header: sixteen lines, of which the
   * second, ninth, eleventh and thirteenth open a block, the fourteenth closes
   * it, the fifteenth is empty, and every other one is plain.
   */
  predicate HeaderShape(h: seq<string>)
  {
    && |h| == 16
    && h[1] == h[8] == h[10] == h[12] == "{" && h[13] == "}" && h[14] == ""
    && Plain(h[0]) && Plain(h[2]) && Plain(h[3]) && Plain(h[4]) && Plain(h[5]) && Plain(h[6])
    && Plain(h[7]) && Plain(h[9]) && Plain(h[11]) && Plain(h[15])
  }

  /** The header's lines open three blocks, in order: the namespace, the interface and the class. */
  lemma {:induction false} HeaderLineEffects(t: NamedType)
    ensures HeaderShape(HeaderLines(t))
  {
    PlainPrefixEffect("namespace ", t.containingNamespace);
    HeaderDocPlain(t);
    HeaderTypeLinesPlain(t);
  }

  /** The documentation lines of the header start with '/'. */
  lemma {:induction false} HeaderDocPlain(t: NamedType)
    ensures var h := HeaderLines(t);
      Plain(h[2]) && Plain(h[3]) && Plain(h[4]) && Plain(h[5]) && Plain(h[6])
  {
    var shortName := t.shortName;
    PlainPrefixEffect("/// ", "<summary>");
    PlainPrefixEffect("/// ", WrapperText + SeeEnumerable(shortName) + SameMethodsText + shortName + ".");
    PlainPrefixEffect("/// ", CallingText + SeeEnumerable(shortName) + "</para>");
    PlainPrefixEffect("/// ", RegisterText);
    PlainPrefixEffect("/// ", "</summary>");
  }

  /** The interface, class, constructor and OnEach lines of the header start with 'p'. */
  lemma {:induction false} HeaderTypeLinesPlain(t: NamedType)
    ensures var h := HeaderLines(t);
      Plain(h[7]) && Plain(h[9]) && Plain(h[11]) && Plain(h[15])
  {
    var h := HeaderLines(t);
    PlainLineEffect(h[7]);
    PlainLineEffect(h[9]);
    PlainLineEffect(h[11]);
    PlainLineEffect(h[15]);
  }

  /** Balanced methods between lines shaped like a header and the footer make a balanced block. */
  lemma {:induction false} ShapeBalanced(h: seq<string>, methods: seq<string>)
    requires HeaderShape(h) && Balanced(methods)
    ensures Balanced(h + methods + FooterLines)
  {
    BraceLineEffects();
    var head := h[2..8];
    assert head == [h[2], h[3], h[4], h[5], h[6], h[7]];
    var classLines := h[14..];
    assert classLines == [h[14], h[15]];
    InterfaceShapeBalanced(h[0], head, h[9], h[11], classLines, methods, "{", "}", "");
    assert h == [h[0], "{"] + head + ["{", h[9], "{", h[11], "{", "}"] + classLines;
  }

  /** The forwarding methods written between an interface block's header and its footer. */
  function MethodLines(d: IdentifiedAllOf): seq<string>
  {
    var h := HeaderLines(d.interfaceType);
    var r := Run(MethodOutputs(d.interfaceType.shortName, d.methodsInInterface), 0, Output(h, None));
    if |h| <= |r.lines| then r.lines[|h|..] else []
  }

  lemma {:induction false} InterfaceOutputParts(d: IdentifiedAllOf)
    requires forall j :: 0 <= j < |d.methodsInInterface| ==> KnownRefKinds(d.methodsInInterface[j].parameters)
    ensures InterfaceOutput(d).thrown.None?
    ensures InterfaceOutput(d).lines == HeaderLines(d.interfaceType) + MethodLines(d) + FooterLines
    ensures Balanced(MethodLines(d))
  {
    var t := d.interfaceType;
    var h := HeaderLines(t);
    var r := Run(MethodOutputs(t.shortName, d.methodsInInterface), 0, Output(h, None));
    MethodsBalanced(t.shortName, d.methodsInInterface, Output(h, None));
    PrefixThenRest(r.lines, h);
  }

  /**
   * An interface block whose methods GetRef all accepts is written in full:
   * its header, one forwarding method per method of the interface, and the
   * footer, opening exactly the blocks it closes.
   */
  lemma {:induction false} InterfaceBalanced(d: IdentifiedAllOf)
    requires forall j :: 0 <= j < |d.methodsInInterface| ==> KnownRefKinds(d.methodsInInterface[j].parameters)
    ensures var out := InterfaceOutput(d);
      && out.thrown.None?
      && |HeaderLines(d.interfaceType)| + |FooterLines| <= |out.lines|
      && out.lines[..|HeaderLines(d.interfaceType)|] == HeaderLines(d.interfaceType)
      && out.lines[|out.lines| - |FooterLines|..] == FooterLines
      && Balanced(out.lines)
  {
    var t := d.interfaceType;
    var h := HeaderLines(t);
    var methods := MethodLines(d);
    InterfaceOutputParts(d);
    FramedBalanced(t, methods);
    PrefixAndSuffix(h, methods, FooterLines);
  }

  /** Balanced methods between an interface's header and the footer make a balanced block. */
  lemma {:induction false} FramedBalanced(t: NamedType, methods: seq<string>)
    requires Balanced(methods)
    ensures Balanced(HeaderLines(t) + methods + FooterLines)
  {
    HeaderLineEffects(t);
    ShapeBalanced(HeaderLines(t), methods);
  }

  /** Writing an interface block throws exactly when one of its methods has a passing mode GetRef rejects. */
  lemma {:induction false} InterfaceThrows(d: IdentifiedAllOf)
    ensures InterfaceOutput(d).thrown.Some? <==>
      exists j :: 0 <= j < |d.methodsInInterface| && !KnownRefKinds(d.methodsInInterface[j].parameters)
  {
    MethodsThrow(d.interfaceType.shortName, d.methodsInInterface, Output(HeaderLines(d.interfaceType), None));
  }

  /** The interface type of each identified entry, in order: Identified.Select(d => d.InterfaceType). */
  function InterfaceTypes(ids: seq<IdentifiedAllOf>): (r: seq<NamedType>)
    ensures |r| == |ids| && forall j :: 0 <= j < |ids| ==> r[j] == ids[j].interfaceType
  {
    seq(|ids|, j requires 0 <= j < |ids| => ids[j].interfaceType)
  }

  /** DistinctBy(d => d.InterfaceType): the first entry for each interface type, in order. */
  function DistinctByInterface(ids: seq<IdentifiedAllOf>): seq<IdentifiedAllOf>
  {
    if ids == [] then []
    else
      var init := ids[..|ids| - 1];
      var last := ids[|ids| - 1];
      if last.interfaceType in InterfaceTypes(init) then DistinctByInterface(init)
      else DistinctByInterface(init) + [last]
  }

  /** No two entries are for the same interface type. */
  predicate DistinctInterfaces(ds: seq<IdentifiedAllOf>)
  {
    forall i, j :: 0 <= i < j < |ds| ==> ds[i].interfaceType != ds[j].interfaceType
  }

  /**
   * DistinctBy keeps only identified entries, keeps one for every interface
   * type, and never two for the same interface type.
   */
  lemma {:induction false} DistinctByInterfaceProperties(ids: seq<IdentifiedAllOf>)
    ensures forall x :: x in DistinctByInterface(ids) ==> x in ids
    ensures forall t :: t in InterfaceTypes(ids) <==> t in InterfaceTypes(DistinctByInterface(ids))
    ensures DistinctInterfaces(DistinctByInterface(ids))
    decreases |ids|
  {
    if ids != [] {
      var init := ids[..|ids| - 1];
      var last := ids[|ids| - 1];
      DistinctByInterfaceProperties(init);
      assert ids == init + [last];
      InterfaceTypesAppend(init, last);
      var ds := DistinctByInterface(init);
      if last.interfaceType !in InterfaceTypes(init) {
        InterfaceTypesAppend(ds, last);
        DistinctAppend(ds, last);
      }
    }
  }

  /** d is the first entry of ids for its interface type. */
  predicate FirstEntryFor(ids: seq<IdentifiedAllOf>, d: IdentifiedAllOf)
  {
    var k := FirstIndex(InterfaceTypes(ids), d.interfaceType);
    k < |ids| && ids[k] == d
  }

  /** DistinctBy keeps, for each interface type, the first entry for it. */
  lemma {:induction false} DistinctByInterfaceKeepsFirst(ids: seq<IdentifiedAllOf>)
    ensures forall i :: 0 <= i < |DistinctByInterface(ids)| ==> FirstEntryFor(ids, DistinctByInterface(ids)[i])
    decreases |ids|
  {
    if ids != [] {
      var init := ids[..|ids| - 1];
      var last := ids[|ids| - 1];
      assert ids == init + [last];
      var ds := DistinctByInterface(init);
      DistinctByInterfaceKeepsFirst(init);
      forall i | 0 <= i < |ds|
        ensures FirstEntryFor(ids, ds[i])
      {
        FirstEntryForAppend(init, last, ds[i]);
      }
      if last.interfaceType !in InterfaceTypes(init) {
        FirstEntryForNew(init, last);
        var ds' := ds + [last];
        forall i | 0 <= i < |ds'|
          ensures FirstEntryFor(ids, ds'[i])
        {
          if i < |ds| {
            assert ds'[i] == ds[i];
          }
        }
      }
    }
  }

  /** DistinctBy lists the kept entries in the order of their first appearance. */
  lemma {:induction false} DistinctByInterfaceFirstOrder(ids: seq<IdentifiedAllOf>)
    ensures forall i, j :: 0 <= i < j < |DistinctByInterface(ids)| ==>
      FirstIndex(InterfaceTypes(ids), DistinctByInterface(ids)[i].interfaceType)
        < FirstIndex(InterfaceTypes(ids), DistinctByInterface(ids)[j].interfaceType)
    decreases |ids|
  {
    if ids != [] {
      var init := ids[..|ids| - 1];
      var last := ids[|ids| - 1];
      assert ids == init + [last];
      DistinctByInterfaceFirstOrder(init);
      DistinctByInterfaceKeepsFirst(init);
      if last.interfaceType in InterfaceTypes(init) {
        FirstOrderAfterSeen(init, last, DistinctByInterface(init));
      } else {
        FirstOrderAfterNew(init, last, DistinctByInterface(init));
      }
    }
  }

  /** First-entry order of ds, read in ids. */
  predicate InFirstOrder(ids: seq<IdentifiedAllOf>, ds: seq<IdentifiedAllOf>)
  {
    forall i, j :: 0 <= i < j < |ds| ==>
      FirstIndex(InterfaceTypes(ids), ds[i].interfaceType) < FirstIndex(InterfaceTypes(ids), ds[j].interfaceType)
  }

  /** Appending an entry leaves the first-entry order of the kept entries as it was. */
  lemma {:induction false} FirstOrderAfterSeen(ids: seq<IdentifiedAllOf>, last: IdentifiedAllOf, ds: seq<IdentifiedAllOf>)
    requires InFirstOrder(ids, ds)
    requires forall i :: 0 <= i < |ds| ==> FirstEntryFor(ids, ds[i])
    ensures InFirstOrder(ids + [last], ds)
  {
    forall i | 0 <= i < |ds|
      ensures FirstIndex(InterfaceTypes(ids + [last]), ds[i].interfaceType) == FirstIndex(InterfaceTypes(ids), ds[i].interfaceType)
    {
      FirstEntryForAppend(ids, last, ds[i]);
    }
  }

  /** An entry for a new interface, kept at the end, comes last in first-entry order. */
  lemma {:induction false} FirstOrderAfterNew(ids: seq<IdentifiedAllOf>, last: IdentifiedAllOf, ds: seq<IdentifiedAllOf>)
    requires InFirstOrder(ids, ds)
    requires forall i :: 0 <= i < |ds| ==> FirstEntryFor(ids, ds[i])
    requires last.interfaceType !in InterfaceTypes(ids)
    ensures InFirstOrder(ids + [last], ds + [last])
  {
    FirstOrderAfterSeen(ids, last, ds);
    FirstEntryForNew(ids, last);
    var ds' := ds + [last];
    forall i | 0 <= i < |ds|
      ensures FirstIndex(InterfaceTypes(ids + [last]), ds[i].interfaceType) < |ids|
    {
      FirstEntryForAppend(ids, last, ds[i]);
    }
    forall i, j | 0 <= i < j < |ds'|
      ensures FirstIndex(InterfaceTypes(ids + [last]), ds'[i].interfaceType) < FirstIndex(InterfaceTypes(ids + [last]), ds'[j].interfaceType)
    {
      assert ds'[i] == ds[i];
      if j < |ds| {
        assert ds'[j] == ds[j];
      }
    }
  }

  /** The first entry for an interface stays the first when an entry is appended. */
  lemma {:induction false} FirstEntryForAppend(ids: seq<IdentifiedAllOf>, last: IdentifiedAllOf, d: IdentifiedAllOf)
    requires FirstEntryFor(ids, d)
    ensures FirstEntryFor(ids + [last], d)
    ensures FirstIndex(InterfaceTypes(ids + [last]), d.interfaceType) == FirstIndex(InterfaceTypes(ids), d.interfaceType) < |ids|
  {
    InterfaceTypesAppend(ids, last);
    FirstIndexAppend(InterfaceTypes(ids), last.interfaceType, d.interfaceType);
  }

  /** An appended entry for an interface not seen before is the first entry for it. */
  lemma {:induction false} FirstEntryForNew(ids: seq<IdentifiedAllOf>, last: IdentifiedAllOf)
    requires last.interfaceType !in InterfaceTypes(ids)
    ensures FirstEntryFor(ids + [last], last)
    ensures FirstIndex(InterfaceTypes(ids + [last]), last.interfaceType) == |ids|
  {
    InterfaceTypesAppend(ids, last);
    FirstIndexAppendNew(InterfaceTypes(ids), last.interfaceType);
  }

  lemma {:induction false} InterfaceTypesAppend(ds: seq<IdentifiedAllOf>, last: IdentifiedAllOf)
    ensures InterfaceTypes(ds + [last]) == InterfaceTypes(ds) + [last.interfaceType]
  {
  }

  /** An entry for an interface type not yet present keeps the entries distinct. */
  lemma {:induction false} DistinctAppend(ds: seq<IdentifiedAllOf>, last: IdentifiedAllOf)
    requires DistinctInterfaces(ds) && last.interfaceType !in InterfaceTypes(ds)
    ensures DistinctInterfaces(ds + [last])
  {
    var ds' := ds + [last];
    forall i, j | 0 <= i < j < |ds'|
      ensures ds'[i].interfaceType != ds'[j].interfaceType
    {
      assert ds'[i] == ds[i];
      if j == |ds| {
        assert InterfaceTypes(ds)[i] == ds[i].interfaceType;
      } else {
        assert ds'[j] == ds[j];
      }
    }
  }

  /** The generator's list of written long names, and what GenerateSource has written. */
  datatype Emission = Emission(typesWritten: seq<string>, out: Output)

  /**
   * One entry of the loop in GenerateSource: an interface whose long name was
   * written before is skipped; otherwise its name is recorded and its block
   * written.
   */
  function EmitOne(e: Emission, name: string, block: Output): Emission
  {
    if name in e.typesWritten then e
    else Emission(e.typesWritten + [name], After(e.out, block))
  }

  /** The loop from the i-th entry on, until a block throws. */
  function EmitFrom(names: seq<string>, blocks: seq<Output>, i: nat, e: Emission): Emission
    requires |names| == |blocks| && i <= |names|
    decreases |names| - i
  {
    if e.out.thrown.Some? || i == |names| then e
    else EmitFrom(names, blocks, i + 1, EmitOne(e, names[i], blocks[i]))
  }

  /** The long name of each entry's interface, in order. */
  function LongNames(ds: seq<IdentifiedAllOf>): (r: seq<string>)
    ensures |r| == |ds| && forall j :: 0 <= j < |ds| ==> r[j] == ds[j].interfaceType.longName
  {
    seq(|ds|, j requires 0 <= j < |ds| => ds[j].interfaceType.longName)
  }

  /** The block each entry's interface gets, in order. */
  function InterfaceBlocks(ds: seq<IdentifiedAllOf>): seq<Output>
  {
    seq(|ds|, j requires 0 <= j < |ds| => InterfaceOutput(ds[j]))
  }

  /**
   * GenerateSource on a generator that has written the given long names
   * before: the using block for the interface types and the framework types
   * (whose namespaces the compilation resolves, or not), an empty line, then
   * one block per interface type not yet written.
   */
  function Generate(typesWritten: seq<string>, identified: seq<IdentifiedAllOf>, frameworkNamespaces: seq<Option<string>>): Emission
  {
    match GetUsingStatementsForTypes(InterfaceTypes(identified), frameworkNamespaces)
    case Failure(e) => Emission(typesWritten, Output([], Some(e)))
    case Success(usings) =>
      var ds := DistinctByInterface(identified);
      EmitFrom(LongNames(ds), InterfaceBlocks(ds), 0, Emission(typesWritten, Output([usings, ""], None)))
  }

  /**
   * The list of written names only grows, never holds a name twice, and gains
   * only names of the entries.
   */
  lemma {:induction false} EmitFromTypesWritten(names: seq<string>, blocks: seq<Output>, i: nat, e: Emission)
    requires |names| == |blocks| && i <= |names| && NoDuplicates(e.typesWritten)
    ensures var r := EmitFrom(names, blocks, i, e);
      && |e.typesWritten| <= |r.typesWritten| && r.typesWritten[..|e.typesWritten|] == e.typesWritten
      && NoDuplicates(r.typesWritten)
      && (forall k :: |e.typesWritten| <= k < |r.typesWritten| ==> r.typesWritten[k] in names[i..])
    decreases |names| - i
  {
    if e.out.thrown.None? && i < |names| {
      var name := names[i];
      var next := EmitOne(e, name, blocks[i]);
      assert NoDuplicates(next.typesWritten);
      EmitFromTypesWritten(names, blocks, i + 1, next);
      var r := EmitFrom(names, blocks, i, e);
      assert r.typesWritten[..|next.typesWritten|] == next.typesWritten;
      assert r.typesWritten[..|e.typesWritten|] == e.typesWritten;
      forall k | |e.typesWritten| <= k < |r.typesWritten|
        ensures r.typesWritten[k] in names[i..]
      {
        if k >= |next.typesWritten| {
          assert names[i + 1..] == names[i..][1..];
        } else {
          assert r.typesWritten[k] == next.typesWritten[k] == name == names[i..][0];
        }
      }
    }
  }

  /** When the loop completes, the list of written names holds the name of every entry. */
  lemma {:induction false} EmitFromRecordsAll(names: seq<string>, blocks: seq<Output>, i: nat, e: Emission)
    requires |names| == |blocks| && i <= |names| && e.out.thrown.None?
    requires EmitFrom(names, blocks, i, e).out.thrown.None?
    ensures forall j :: i <= j < |names| ==> names[j] in EmitFrom(names, blocks, i, e).typesWritten
    decreases |names| - i
  {
    if i < |names| {
      var name := names[i];
      var next := EmitOne(e, name, blocks[i]);
      assert name in next.typesWritten;
      EmitFromRecordsAll(names, blocks, i + 1, next);
      var r := EmitFrom(names, blocks, i + 1, next);
      EmitFromKeepsPrefix(names, blocks, i + 1, next);
      var p :| 0 <= p < |next.typesWritten| && next.typesWritten[p] == name;
      assert r.typesWritten[p] == name;
    }
  }

  /** The loop only appends to the list of written names. */
  lemma {:induction false} EmitFromKeepsPrefix(names: seq<string>, blocks: seq<Output>, i: nat, e: Emission)
    requires |names| == |blocks| && i <= |names|
    ensures var r := EmitFrom(names, blocks, i, e);
      |e.typesWritten| <= |r.typesWritten| && r.typesWritten[..|e.typesWritten|] == e.typesWritten
    decreases |names| - i
  {
    if e.out.thrown.None? && i < |names| {
      var next := EmitOne(e, names[i], blocks[i]);
      EmitFromKeepsPrefix(names, blocks, i + 1, next);
      var r := EmitFrom(names, blocks, i + 1, next);
      assert r.typesWritten[..|e.typesWritten|] == r.typesWritten[..|next.typesWritten|][..|e.typesWritten|];
    }
  }

  /** When every block completes balanced, the loop completes and what it adds is balanced. */
  lemma {:induction false} EmitFromBalanced(names: seq<string>, blocks: seq<Output>, i: nat, e: Emission)
    requires |names| == |blocks| && i <= |names| && e.out.thrown.None?
    requires forall j :: i <= j < |blocks| ==> blocks[j].thrown.None? && Balanced(blocks[j].lines)
    ensures var r := EmitFrom(names, blocks, i, e);
      && r.out.thrown.None?
      && |e.out.lines| <= |r.out.lines| && r.out.lines[..|e.out.lines|] == e.out.lines
      && Balanced(r.out.lines[|e.out.lines|..])
    decreases |names| - i
  {
    if i == |names| {
      assert e.out.lines[|e.out.lines|..] == [];
      PlainLinesBalanced([]);
    } else if names[i] in e.typesWritten {
      EmitFromBalanced(names, blocks, i + 1, e);
    } else {
      var next := EmitOne(e, names[i], blocks[i]);
      assert next.out == Output(e.out.lines + blocks[i].lines, None);
      EmitFromBalanced(names, blocks, i + 1, next);
      AppendedBalanced(e.out.lines, blocks[i].lines, EmitFrom(names, blocks, i + 1, next).out.lines);
    }
  }

  /** Lines that extend a + b by a balanced run extend a by a balanced run when b is balanced. */
  lemma {:induction false} AppendedBalanced(a: seq<string>, b: seq<string>, r: seq<string>)
    requires |a + b| <= |r| && r[..|a + b|] == a + b && Balanced(b) && Balanced(r[|a + b|..])
    ensures |a| <= |r| && r[..|a|] == a && Balanced(r[|a|..])
  {
    BalancedAppend(b, r[|a + b|..]);
    assert r[|a|..] == b + r[|a + b|..];
    assert r[..|a|] == (a + b)[..|a|];
  }

  /** The loop throws only what the first written block that throws throws. */
  lemma {:induction false} EmitFromThrows(names: seq<string>, blocks: seq<Output>, i: nat, e: Emission)
    requires |names| == |blocks| && i <= |names| && e.out.thrown.None?
    ensures var r := EmitFrom(names, blocks, i, e);
      r.out.thrown.Some? ==> exists j :: i <= j < |blocks| && r.out.thrown == blocks[j].thrown
    decreases |names| - i
  {
    if i < |names| {
      var next := EmitOne(e, names[i], blocks[i]);
      if next.out.thrown.None? {
        EmitFromThrows(names, blocks, i + 1, next);
      }
    }
  }

  /** When every name has been written before, the loop writes nothing. */
  lemma {:induction false} EmitFromAllWritten(names: seq<string>, blocks: seq<Output>, i: nat, e: Emission)
    requires |names| == |blocks| && i <= |names|
    requires forall j :: i <= j < |names| ==> names[j] in e.typesWritten
    ensures EmitFrom(names, blocks, i, e) == e
    decreases |names| - i
  {
    if i < |names| {
      EmitFromAllWritten(names, blocks, i + 1, e);
    }
  }

  /** The using line neither opens nor closes a block. */
  lemma {:induction false} UsingLinePlain(typeSymbols: seq<NamedType>, frameworkNamespaces: seq<Option<string>>)
    requires None !in frameworkNamespaces
    ensures var usings := GetUsingStatementsForTypes(typeSymbols, frameworkNamespaces).value;
      !OpensBlock(usings) && !ClosesBlock(usings)
  {
    var namespaces := UsedNamespaces(typeSymbols, ResolvedNamespaces(frameworkNamespaces).value);
    UsingBlockHead(namespaces);
    if namespaces != [] {
      PlainLineEffect(WriteUsingStatements(namespaces));
    }
  }

  /** A framework type the compilation does not resolve makes GenerateSource throw before it writes anything. */
  lemma {:induction false} GenerateUnresolved(typesWritten: seq<string>, identified: seq<IdentifiedAllOf>, frameworkNamespaces: seq<Option<string>>)
    requires None in frameworkNamespaces
    ensures Generate(typesWritten, identified, frameworkNamespaces) == Emission(typesWritten, Output([], Some(NullReferenceException)))
  {
  }

  /** The blocks of entries whose methods GetRef all accepts complete, balanced. */
  lemma {:induction false} InterfaceBlocksBalanced(ds: seq<IdentifiedAllOf>)
    requires forall j, k :: 0 <= j < |ds| && 0 <= k < |ds[j].methodsInInterface| ==>
      KnownRefKinds(ds[j].methodsInInterface[k].parameters)
    ensures var blocks := InterfaceBlocks(ds);
      |blocks| == |ds| && forall j :: 0 <= j < |blocks| ==> blocks[j].thrown.None? && Balanced(blocks[j].lines)
  {
    var blocks := InterfaceBlocks(ds);
    forall j | 0 <= j < |blocks|
      ensures blocks[j].thrown.None? && Balanced(blocks[j].lines)
    {
      assert blocks[j] == InterfaceOutput(ds[j]);
      InterfaceBalanced(ds[j]);
    }
  }

  /**
   * When the compilation resolves every framework type and GetRef accepts
   * every parameter, GenerateSource completes: the using line, an empty line,
   * then interface blocks, the whole opening exactly the blocks it closes.
   */
  lemma {:induction false} GenerateBalanced(typesWritten: seq<string>, identified: seq<IdentifiedAllOf>, frameworkNamespaces: seq<Option<string>>)
    requires None !in frameworkNamespaces
    requires forall j, k :: 0 <= j < |identified| && 0 <= k < |identified[j].methodsInInterface| ==>
      KnownRefKinds(identified[j].methodsInInterface[k].parameters)
    ensures var g := Generate(typesWritten, identified, frameworkNamespaces);
      && g.out.thrown.None?
      && |g.out.lines| >= 2
      && g.out.lines[..2] == [GetUsingStatementsForTypes(InterfaceTypes(identified), frameworkNamespaces).value, ""]
      && Balanced(g.out.lines)
  {
    var usings := GetUsingStatementsForTypes(InterfaceTypes(identified), frameworkNamespaces).value;
    var ds := DistinctByInterface(identified);
    assert forall j, k :: 0 <= j < |ds| && 0 <= k < |ds[j].methodsInInterface| ==>
      KnownRefKinds(ds[j].methodsInInterface[k].parameters) by {
      DistinctByInterfaceProperties(identified);
      forall j, k | 0 <= j < |ds| && 0 <= k < |ds[j].methodsInInterface|
        ensures KnownRefKinds(ds[j].methodsInInterface[k].parameters)
      {
        assert ds[j] in identified;
        var i :| 0 <= i < |identified| && identified[i] == ds[j];
      }
    }
    InterfaceBlocksBalanced(ds);
    var start := Emission(typesWritten, Output([usings, ""], None));
    EmitFromBalanced(LongNames(ds), InterfaceBlocks(ds), 0, start);
    UsingLinePlain(InterfaceTypes(identified), frameworkNamespaces);
    BalancedAfterPlainLines(usings, Generate(typesWritten, identified, frameworkNamespaces).out.lines);
  }

  /** A plain line and an empty line, followed by balanced lines, are balanced. */
  lemma {:induction false} BalancedAfterPlainLines(first: string, lines: seq<string>)
    requires LineEffect(first) == 0
    requires |lines| >= 2 && lines[..2] == [first, ""] && Balanced(lines[2..])
    ensures Balanced(lines)
  {
    EmptyLineEffect();
    PlainLinesBalanced([first, ""]);
    BalancedAppend([first, ""], lines[2..]);
    assert lines == [first, ""] + lines[2..];
  }

  /**
   * GenerateSource keeps the names written before, never records a name twice,
   * records only long names of identified interfaces, and when it completes
   * has recorded the long name of every identified interface.
   */
  lemma {:induction false} GenerateTypesWritten(typesWritten: seq<string>, identified: seq<IdentifiedAllOf>, frameworkNamespaces: seq<Option<string>>)
    requires NoDuplicates(typesWritten)
    ensures var g := Generate(typesWritten, identified, frameworkNamespaces);
      && |typesWritten| <= |g.typesWritten| && g.typesWritten[..|typesWritten|] == typesWritten
      && NoDuplicates(g.typesWritten)
      && (forall k :: |typesWritten| <= k < |g.typesWritten| ==>
            exists j :: 0 <= j < |identified| && identified[j].interfaceType.longName == g.typesWritten[k])
      && (g.out.thrown.None? ==> forall j :: 0 <= j < |identified| ==> identified[j].interfaceType.longName in g.typesWritten)
  {
    var g := Generate(typesWritten, identified, frameworkNamespaces);
    var usings := GetUsingStatementsForTypes(InterfaceTypes(identified), frameworkNamespaces);
    if usings.Success? {
      var ds := DistinctByInterface(identified);
      var names := LongNames(ds);
      var start := Emission(typesWritten, Output([usings.value, ""], None));
      EmitFromTypesWritten(names, InterfaceBlocks(ds), 0, start);
      if g.out.thrown.None? {
        EmitFromRecordsAll(names, InterfaceBlocks(ds), 0, start);
      }
      assert names[0..] == names;
      forall k | |typesWritten| <= k < |g.typesWritten|
        ensures exists j :: 0 <= j < |identified| && identified[j].interfaceType.longName == g.typesWritten[k]
      {
        LongNameOrigin(identified, g.typesWritten[k]);
      }
      if g.out.thrown.None? {
        forall j | 0 <= j < |identified|
          ensures identified[j].interfaceType.longName in g.typesWritten
        {
          LongNameCovered(identified, j);
        }
      }
    }
  }

  /** A long name of a distinct entry is the long name of an identified entry. */
  lemma {:induction false} LongNameOrigin(identified: seq<IdentifiedAllOf>, name: string)
    requires name in LongNames(DistinctByInterface(identified))
    ensures exists j :: 0 <= j < |identified| && identified[j].interfaceType.longName == name
  {
    var ds := DistinctByInterface(identified);
    DistinctByInterfaceProperties(identified);
    var p :| 0 <= p < |ds| && LongNames(ds)[p] == name;
    assert ds[p] in identified;
    var j :| 0 <= j < |identified| && identified[j] == ds[p];
  }

  /** The long name of every identified entry is the long name of a distinct entry. */
  lemma {:induction false} LongNameCovered(identified: seq<IdentifiedAllOf>, j: nat)
    requires j < |identified|
    ensures identified[j].interfaceType.longName in LongNames(DistinctByInterface(identified))
  {
    var ds := DistinctByInterface(identified);
    DistinctByInterfaceProperties(identified);
    var t := identified[j].interfaceType;
    var types := InterfaceTypes(ds);
    assert InterfaceTypes(identified)[j] == t;
    assert t in types;
    var p :| 0 <= p < |types| && types[p] == t;
    assert LongNames(ds)[p] == t.longName;
  }

  /** The block of an entry that throws has a method with a passing mode GetRef rejects. */
  lemma {:induction false} InterfaceBlockThrows(ds: seq<IdentifiedAllOf>, p: nat) returns (k: nat)
    requires p < |ds| && p < |InterfaceBlocks(ds)| && InterfaceBlocks(ds)[p].thrown.Some?
    ensures k < |ds[p].methodsInInterface| && !KnownRefKinds(ds[p].methodsInInterface[k].parameters)
  {
    assert InterfaceBlocks(ds)[p] == InterfaceOutput(ds[p]);
    InterfaceThrows(ds[p]);
    k :| 0 <= k < |ds[p].methodsInInterface| && !KnownRefKinds(ds[p].methodsInInterface[k].parameters);
  }

  /**
   * GenerateSource throws only when the compilation does not resolve a
   * framework type, or when GetRef rejects a parameter of an identified
   * interface's method.
   */
  lemma {:induction false} GenerateThrows(typesWritten: seq<string>, identified: seq<IdentifiedAllOf>, frameworkNamespaces: seq<Option<string>>)
    ensures Generate(typesWritten, identified, frameworkNamespaces).out.thrown.Some? ==>
      || None in frameworkNamespaces
      || exists j, k :: 0 <= j < |identified| && 0 <= k < |identified[j].methodsInInterface| &&
           !KnownRefKinds(identified[j].methodsInInterface[k].parameters)
  {
    var g := Generate(typesWritten, identified, frameworkNamespaces);
    if g.out.thrown.Some? && None !in frameworkNamespaces {
      var usings := GetUsingStatementsForTypes(InterfaceTypes(identified), frameworkNamespaces).value;
      var ds := DistinctByInterface(identified);
      var blocks := InterfaceBlocks(ds);
      EmitFromThrows(LongNames(ds), blocks, 0, Emission(typesWritten, Output([usings, ""], None)));
      var p :| 0 <= p < |blocks| && g.out.thrown == blocks[p].thrown;
      var k := InterfaceBlockThrows(ds, p);
      DistinctByInterfaceProperties(identified);
      assert ds[p] in identified;
      var j :| 0 <= j < |identified| && identified[j] == ds[p];
    }
  }

  /**
   * The generator remembers what it wrote: running GenerateSource again on
   * the same instance with the same interfaces writes the using line and the
   * empty line and no interface block.
   */
  lemma {:induction false} SecondGenerateWritesNoInterface(typesWritten: seq<string>, identified: seq<IdentifiedAllOf>, frameworkNamespaces: seq<Option<string>>)
    requires NoDuplicates(typesWritten)
    requires Generate(typesWritten, identified, frameworkNamespaces).out.thrown.None?
    ensures var first := Generate(typesWritten, identified, frameworkNamespaces);
      var usings := GetUsingStatementsForTypes(InterfaceTypes(identified), frameworkNamespaces);
      && usings.Success?
      && Generate(first.typesWritten, identified, frameworkNamespaces) == Emission(first.typesWritten, Output([usings.value, ""], None))
  {
    var first := Generate(typesWritten, identified, frameworkNamespaces);
    var usings := GetUsingStatementsForTypes(InterfaceTypes(identified), frameworkNamespaces);
    GenerateTypesWritten(typesWritten, identified, frameworkNamespaces);
    var ds := DistinctByInterface(identified);
    DistinctByInterfaceProperties(identified);
    var names := LongNames(ds);
    forall p | 0 <= p < |names|
      ensures names[p] in first.typesWritten
    {
      assert ds[p] in identified;
      var j :| 0 <= j < |identified| && identified[j] == ds[p];
    }
    EmitFromAllWritten(names, InterfaceBlocks(ds), 0, Emission(first.typesWritten, Output([usings.value, ""], None)));
  }

  class AllOfGenerator {
    /** The long names of the interfaces this instance has written, over all its runs. */
    var typesWritten: seq<string>

    constructor()
      ensures typesWritten == []
    {
      typesWritten := [];
    }

    /**
     * GenerateSource: the text of the generated file, or the exception that
     * stops it. The framework types are given by the namespaces the
     * compilation resolves for them.
     */
    method GenerateSource(identified: seq<IdentifiedAllOf>, frameworkNamespaces: seq<Option<string>>)
      returns (source: Result<string, Exception>)
      modifies this
      ensures var g := Generate(old(typesWritten), identified, frameworkNamespaces);
        && typesWritten == g.typesWritten
        && source == (if g.out.thrown.Some? then Failure(g.out.thrown.value) else Success(Unlines(g.out.lines)))
    {
      var codeWriter := new CodeGenerationTextWriter();
      var usings := GetUsingStatementsForTypes(InterfaceTypes(identified), frameworkNamespaces);
      if usings.Failure? {
        return Failure(usings.error);
      }
      UsingLinePlain(InterfaceTypes(identified), frameworkNamespaces);
      codeWriter.WriteLine(usings.value);
      codeWriter.WriteEmptyLine();
      assert codeWriter.written == [usings.value, ""];
      var distinct := DistinctByInterface(identified);
      ghost var names := LongNames(distinct);
      ghost var blocks := InterfaceBlocks(distinct);
      ghost var done := Emission(typesWritten, Output([usings.value, ""], None));
      assert Generate(typesWritten, identified, frameworkNamespaces) == EmitFrom(names, blocks, 0, done);
      var i := 0;
      while i < |distinct|
        invariant 0 <= i <= |distinct|
        invariant Generate(old(typesWritten), identified, frameworkNamespaces) == EmitFrom(names, blocks, i, done)
        invariant done.out.thrown.None?
        invariant done.typesWritten == typesWritten && done.out.lines == codeWriter.written
        invariant codeWriter.Indent == 0
      {
        var identifiedDecorator := distinct[i];
        var interfaceLongName := identifiedDecorator.interfaceType.longName;
        ghost var next := EmitOne(done, names[i], blocks[i]);
        assert EmitFrom(names, blocks, i, done) == EmitFrom(names, blocks, i + 1, next);
        if interfaceLongName in typesWritten {
          i := i + 1;
          continue;
        }
        typesWritten := typesWritten + [interfaceLongName];
        var thrown := WriteInterface(codeWriter, identifiedDecorator);
        done := next;
        if thrown.Some? {
          assert EmitFrom(names, blocks, i + 1, done) == done;
          return Failure(thrown.value);
        }
        i := i + 1;
      }
      assert EmitFrom(names, blocks, i, done) == done;
      var text := codeWriter.ToString();
      return Success(text);
    }

    /** The body of the loop in GenerateSource for an interface not written before. */
    static method WriteInterface(codeWriter: CodeGenerationTextWriter, identifiedDecorator: IdentifiedAllOf)
      returns (thrown: Option<Exception>)
      modifies codeWriter
      ensures codeWriter.written == old(codeWriter.written) + InterfaceOutput(identifiedDecorator).lines
      ensures thrown == InterfaceOutput(identifiedDecorator).thrown
      ensures thrown.None? ==> codeWriter.Indent == old(codeWriter.Indent)
    {
      var typeSymbol := identifiedDecorator.interfaceType;
      var interfaceShortName := typeSymbol.shortName;
      ghost var header := HeaderLines(typeSymbol);
      WriteHeader(codeWriter, typeSymbol);
      var methods := identifiedDecorator.methodsInInterface;
      ghost var outs := MethodOutputs(interfaceShortName, methods);
      ghost var done := Output(header, None);
      var j := 0;
      while j < |methods|
        invariant 0 <= j <= |methods|
        invariant Run(outs, 0, Output(header, None)) == Run(outs, j, done)
        invariant done.thrown.None?
        invariant codeWriter.written == old(codeWriter.written) + done.lines
        invariant codeWriter.Indent == old(codeWriter.Indent) + 3
      {
        thrown := WriteMethod(codeWriter, interfaceShortName, methods[j]);
        AppendAssociates(old(codeWriter.written), done.lines, outs[j].lines);
        assert Run(outs, j, done) == Run(outs, j + 1, After(done, outs[j]));
        done := After(done, outs[j]);
        if thrown.Some? {
          assert Run(outs, j + 1, done) == done;
          return;
        }
        j := j + 1;
      }
      assert Run(outs, j, done) == done;
      ghost var before := codeWriter.written;
      BraceLineEffects();
      codeWriter.WriteLine("}");
      codeWriter.WriteLine("}");
      codeWriter.WriteLine("}");
      codeWriter.WriteEmptyLine();
      FooterAfter(before);
      AppendAssociates(old(codeWriter.written), done.lines, FooterLines);
      thrown := None;
    }

    /** The lines of an interface block before its forwarding methods: they open three blocks. */
    static method WriteHeader(codeWriter: CodeGenerationTextWriter, typeSymbol: NamedType)
      modifies codeWriter
      ensures codeWriter.written == old(codeWriter.written) + HeaderLines(typeSymbol)
      ensures codeWriter.Indent == old(codeWriter.Indent) + 3
    {
      var header := HeaderLines(typeSymbol);
      HeaderLineEffects(typeSymbol);
      WriteNamespaceHead(codeWriter, header);
      WriteInterfaceDoc(codeWriter, header);
      WriteTypeHead(codeWriter, header);
      HeaderParts(old(codeWriter.written), header);
    }

    /** The namespace line and the brace that opens the namespace. */
    static method WriteNamespaceHead(codeWriter: CodeGenerationTextWriter, header: seq<string>)
      requires HeaderShape(header)
      modifies codeWriter
      ensures codeWriter.written == old(codeWriter.written) + header[0..2]
      ensures codeWriter.Indent == old(codeWriter.Indent) + 1
    {
      OpenBraceEffect();
      assert old(codeWriter.written) + header[0..0] == old(codeWriter.written);
      codeWriter.WriteLine(header[0]);
      WrittenInTurn(old(codeWriter.written), header, 0, 0);
      codeWriter.WriteLine(header[1]);
      WrittenInTurn(old(codeWriter.written), header, 0, 1);
    }

    /** The documentation comment of the interface. */
    static method WriteInterfaceDoc(codeWriter: CodeGenerationTextWriter, header: seq<string>)
      requires HeaderShape(header)
      modifies codeWriter
      ensures codeWriter.written == old(codeWriter.written) + header[2..7]
      ensures codeWriter.Indent == old(codeWriter.Indent)
    {
      assert old(codeWriter.written) + header[2..2] == old(codeWriter.written);
      codeWriter.WriteLine(header[2]);
      WrittenInTurn(old(codeWriter.written), header, 2, 2);
      codeWriter.WriteLine(header[3]);
      WrittenInTurn(old(codeWriter.written), header, 2, 3);
      codeWriter.WriteLine(header[4]);
      WrittenInTurn(old(codeWriter.written), header, 2, 4);
      codeWriter.WriteLine(header[5]);
      WrittenInTurn(old(codeWriter.written), header, 2, 5);
      codeWriter.WriteLine(header[6]);
      WrittenInTurn(old(codeWriter.written), header, 2, 6);
    }

    /** The interface, its implementing class and the class's constructor. */
    static method WriteTypeHead(codeWriter: CodeGenerationTextWriter, header: seq<string>)
      requires HeaderShape(header)
      modifies codeWriter
      ensures codeWriter.written == old(codeWriter.written) + header[7..16]
      ensures codeWriter.Indent == old(codeWriter.Indent) + 2
    {
      BraceLineEffects();
      assert old(codeWriter.written) + header[7..7] == old(codeWriter.written);
      codeWriter.WriteLine(header[7]);
      WrittenInTurn(old(codeWriter.written), header, 7, 7);
      codeWriter.WriteLine(header[8]);
      WrittenInTurn(old(codeWriter.written), header, 7, 8);
      codeWriter.WriteLine(header[9]);
      WrittenInTurn(old(codeWriter.written), header, 7, 9);
      codeWriter.WriteLine(header[10]);
      WrittenInTurn(old(codeWriter.written), header, 7, 10);
      codeWriter.WriteLine(header[11]);
      WrittenInTurn(old(codeWriter.written), header, 7, 11);
      codeWriter.WriteLine(header[12]);
      WrittenInTurn(old(codeWriter.written), header, 7, 12);
      codeWriter.WriteLine(header[13]);
      WrittenInTurn(old(codeWriter.written), header, 7, 13);
      codeWriter.WriteEmptyLine();
      WrittenInTurn(old(codeWriter.written), header, 7, 14);
      codeWriter.WriteLine(header[15]);
      WrittenInTurn(old(codeWriter.written), header, 7, 15);
    }

    /** The body of the loop over an interface's methods. */
    static method WriteMethod(codeWriter: CodeGenerationTextWriter, interfaceShortName: string, methodSymbol: Method)
      returns (thrown: Option<Exception>)
      modifies codeWriter
      ensures codeWriter.written == old(codeWriter.written) + MethodOutput(interfaceShortName, methodSymbol).lines
      ensures thrown == MethodOutput(interfaceShortName, methodSymbol).thrown
      ensures thrown.None? ==> codeWriter.Indent == old(codeWriter.Indent)
    {
      ghost var doc := MethodDoc(interfaceShortName, methodSymbol);
      WriteMethodDoc(codeWriter, interfaceShortName, methodSymbol);
      var parametersWithType := Declarations(methodSymbol.parameters);
      MethodOutputCases(interfaceShortName, methodSymbol);
      if parametersWithType.Failure? {
        return Some(parametersWithType.error);
      }
      var signature := Signature(methodSymbol, parametersWithType.value);
      SignatureLinePlain(methodSymbol, parametersWithType.value);
      WriteMethodBlock(codeWriter, signature, methodSymbol);
      LinesAfter(old(codeWriter.written), doc, [signature, "{"], BodyOutput(methodSymbol).lines, ["}", ""]);
      thrown := None;
    }

    /** The signature of a forwarding method, then its body in braces, then an empty line. */
    static method WriteMethodBlock(codeWriter: CodeGenerationTextWriter, signature: string, methodSymbol: Method)
      requires KnownRefKinds(methodSymbol.parameters)
      requires !OpensBlock(signature) && !ClosesBlock(signature) && LineEffect(signature) == 0
      modifies codeWriter
      ensures codeWriter.written == old(codeWriter.written) + [signature, "{"] + BodyOutput(methodSymbol).lines + ["}", ""]
      ensures codeWriter.Indent == old(codeWriter.Indent)
    {
      BraceLineEffects();
      codeWriter.WriteLine(signature);
      codeWriter.WriteLine("{");
      var thrown := GenerateBody(codeWriter, methodSymbol);
      assert thrown.None?;
      codeWriter.WriteLine("}");
      codeWriter.WriteEmptyLine();
      BlockAfter(old(codeWriter.written), signature, BodyOutput(methodSymbol).lines);
    }

    /** The documentation comment the loop over an interface's methods writes first. */
    static method WriteMethodDoc(codeWriter: CodeGenerationTextWriter, interfaceShortName: string, methodSymbol: Method)
      modifies codeWriter
      ensures codeWriter.written == old(codeWriter.written) + MethodDoc(interfaceShortName, methodSymbol)
      ensures codeWriter.Indent == old(codeWriter.Indent)
    {
      MethodDocPlain(interfaceShortName, methodSymbol);
      codeWriter.WriteLine(DocLine("<summary>"));
      codeWriter.WriteLine(DocLine("Calls " + methodSymbol.name + " on each item in the " + SeeEnumerable(interfaceShortName)));
      codeWriter.WriteLine(DocLine("</summary>"));
    }

    /** GenerateBody: the statements of a forwarding method, by the kind of its return type. */
    static method GenerateBody(codeWriter: CodeGenerationTextWriter, methodSymbol: Method)
      returns (thrown: Option<Exception>)
      modifies codeWriter
      ensures codeWriter.written == old(codeWriter.written) + BodyOutput(methodSymbol).lines
      ensures thrown == BodyOutput(methodSymbol).thrown
      ensures thrown.None? ==> codeWriter.Indent == old(codeWriter.Indent)
    {
      var parameters := Arguments(methodSymbol.parameters);
      if methodSymbol.ReturnsVoid() {
        thrown := WriteLoopBody(codeWriter, methodSymbol, parameters);
      } else if methodSymbol.returnType == TaskFullName {
        thrown := WriteWhenAllBody(codeWriter, methodSymbol, parameters);
      } else {
        thrown := WriteValueTaskBody(codeWriter, methodSymbol, parameters);
      }
    }

    /** The void branch of GenerateBody. */
    static method WriteLoopBody(codeWriter: CodeGenerationTextWriter, methodSymbol: Method, parameters: Result<seq<string>, Exception>)
      returns (thrown: Option<Exception>)
      modifies codeWriter
      ensures codeWriter.written == old(codeWriter.written) + LoopBody(methodSymbol, parameters).lines
      ensures thrown == LoopBody(methodSymbol, parameters).thrown
      ensures thrown.None? ==> codeWriter.Indent == old(codeWriter.Indent)
    {
      LoopHeaderEffect();
      BraceLineEffects();
      codeWriter.WriteLine(LoopHeader);
      codeWriter.WriteLine("{");
      if parameters.Failure? {
        return Some(parameters.error);
      }
      var call := Call(methodSymbol, parameters.value);
      CallLinePlain(methodSymbol, parameters.value, ";");
      codeWriter.WriteLine(call + ";");
      codeWriter.WriteLine("}");
      thrown := None;
    }

    /** GenerateBody for a method returning Task. */
    static method WriteWhenAllBody(codeWriter: CodeGenerationTextWriter, methodSymbol: Method, parameters: Result<seq<string>, Exception>)
      returns (thrown: Option<Exception>)
      modifies codeWriter
      ensures codeWriter.written == old(codeWriter.written) + WhenAllBody(methodSymbol, parameters).lines
      ensures thrown == WhenAllBody(methodSymbol, parameters).thrown
      ensures codeWriter.Indent == old(codeWriter.Indent)
    {
      if parameters.Failure? {
        return Some(parameters.error);
      }
      var call := Call(methodSymbol, parameters.value);
      PlainPrefixEffect(WhenAllOpen, call + WhenAllClose);
      codeWriter.WriteLine(WhenAllOpen + call + WhenAllClose);
      thrown := None;
    }

    /** The ValueTask branch of GenerateBody. */
    static method WriteValueTaskBody(codeWriter: CodeGenerationTextWriter, methodSymbol: Method, parameters: Result<seq<string>, Exception>)
      returns (thrown: Option<Exception>)
      modifies codeWriter
      ensures codeWriter.written == old(codeWriter.written) + ValueTaskBody(methodSymbol, parameters).lines
      ensures thrown == ValueTaskBody(methodSymbol, parameters).thrown
      ensures codeWriter.Indent == old(codeWriter.Indent)
    {
      if parameters.Failure? {
        return Some(parameters.error);
      }
      var call := Call(methodSymbol, parameters.value);
      PlainPrefixEffect(TasksOpen, call + TasksClose);
      PlainLineEffect(ValueTaskReturn);
      codeWriter.WriteLine(TasksOpen + call + TasksClose);
      codeWriter.WriteLine(ValueTaskReturn);
      thrown := None;
    }
  }

  // Sequence helpers. These lemmas regroup concatenations of written lines
  // and model nothing in the source: the writer methods and the lemmas above
  // call them so that each proof step stays small.

  /** Lines that start with a are a followed by the rest. */
  lemma {:induction false} PrefixThenRest(r: seq<string>, a: seq<string>)
    requires |a| <= |r| && r[..|a|] == a
    ensures r == a + r[|a|..]
  {
    assert r == r[..|a|] + r[|a|..];
  }

  /** Writing the next of the expected lines extends what has been written by one. */
  lemma {:induction false} WrittenInTurn(before: seq<string>, expected: seq<string>, from: nat, k: nat)
    requires from <= k < |expected|
    ensures before + expected[from..k] + [expected[k]] == before + expected[from..k + 1]
  {
    assert expected[from..k + 1] == expected[from..k] + [expected[k]];
  }

  /** The header, written in two parts. */
  lemma {:induction false} HeaderParts(before: seq<string>, header: seq<string>)
    requires |header| == 16
    ensures before + header[0..2] + header[2..7] + header[7..16] == before + header
  {
    assert header[0..2] + header[2..7] + header[7..16] == header;
  }

  /** A line, a body in braces and an empty line, written one by one after lines already written. */
  lemma {:induction false} BlockAfter(before: seq<string>, line: string, body: seq<string>)
    ensures before + [line] + ["{"] + body + ["}"] + [""] == before + [line, "{"] + body + ["}", ""]
  {
  }

  /** Lines written after lines already written, grouped either way. */
  lemma {:induction false} AppendAssociates(before: seq<string>, a: seq<string>, b: seq<string>)
    ensures before + a + b == before + (a + b)
  {
  }

  /** The footer, written one line at a time. */
  lemma {:induction false} FooterAfter(before: seq<string>)
    ensures before + ["}"] + ["}"] + ["}"] + [""] == before + FooterLines
  {
  }

  /** Lines written after lines already written. */
  lemma {:induction false} LinesAfter(before: seq<string>, a: seq<string>, b: seq<string>, c: seq<string>, d: seq<string>)
    ensures before + a + b + c + d == before + (a + b + c + d)
  {
  }

  /** The first and last parts of a concatenation of three. */
  lemma {:induction false} PrefixAndSuffix(a: seq<string>, b: seq<string>, c: seq<string>)
    ensures (a + b + c)[..|a|] == a && (a + b + c)[|a + b + c| - |c|..] == c
  {
  }

  /** A sequence that starts with a + b starts with a, followed by b and the rest. */
  lemma {:induction false} PrefixSplit(r: seq<string>, a: seq<string>, b: seq<string>)
    requires |a| + |b| <= |r| && r[..|a| + |b|] == a + b
    ensures r[..|a|] == a && r[|a|..] == b + r[|a| + |b|..]
  {
    assert r[..|a|] == r[..|a| + |b|][..|a|];
    assert r[|a|..|a| + |b|] == r[..|a| + |b|][|a|..];
    assert r[|a|..] == r[|a|..|a| + |b|] + r[|a| + |b|..];
  }
}
