/** The broker, `LanguageServer`: the registry of classes and variables, the
    routing of CreateObject and CallMethod requests to the endpoint that owns
    the class, and the correlation of return values with the endpoint that
    waits for them. */
module Server {
  import opened Wire
  import opened Overload
  import opened Handler

  /** A method as a class registers it: `{name, parameters, return}`. */
  datatype MethodSignature = MethodSignature(name: string, parameters: Signature, returnType: string)

  /** A registered class: `{name, constructors, methods}`. */
  datatype ClassDescriptor = ClassDescriptor(name: string, constructors: seq<Signature>, methods: seq<MethodSignature>)

  /** A value of `dataMap`: under a class name, the class's descriptor; under
      a variable key, the name of the variable's class. Both kinds share the
      one map. */
  datatype Entry = ClassData(descriptor: ClassDescriptor) | VarClass(className: string)

  /** Why a request raised `InvalidObjectException`. */
  datatype Failure =
    | UnknownClass(className: string)
    | NoMatch(arguments: seq<Arg>, candidates: seq<Signature>)

  /** How a request ends. `FormatFailure`: `writeCommand` threw an unchecked
      `IllegalFormatException` (see `Wire.Frame`); no frame was queued, the
      changes made before the write stay, and since no catch block of
      `LanguageHandler.run` covers the exception, the requesting
      connection's thread ends. */
  datatype Outcome = Ok | InvalidObject(failure: Failure) | FormatFailure

  /** The outcome of a request whose last step is one write. */
  function Written(f: Option<string>): Outcome
  {
    if f.Some? then Ok else FormatFailure
  }

  /** The return type that marks a method whose caller waits for nothing. */
  const Void := "void"

  /** The registry key of a variable: its name behind the prefix "var_". */
  function VarKey(varName: string): (k: string)
    ensures |k| == |varName| + 4 && k[..4] == "var_" && k[4..] == varName
  {
    "var_" + varName
  }

  /** Different variables never share a registry key. */
  lemma VarKeyInjective(a: string, b: string)
    ensures VarKey(a) == VarKey(b) <==> a == b
  {
    if VarKey(a) == VarKey(b) {
      assert a == VarKey(a)[4..];
    }
  }

  /** The overloads `callMethod` considers: the parameter lists of the methods
      whose name is `name`, in declaration order. */
  function Candidates(methods: seq<MethodSignature>, name: string): (r: seq<Signature>)
    ensures |r| <= |methods|
  {
    if methods == [] then []
    else
      var n := |methods| - 1;
      Candidates(methods[..n], name) + (if methods[n].name == name then [methods[n].parameters] else [])
  }

  /** The positions in `methods` of the methods named `name`, ascending. */
  function NamedPositions(methods: seq<MethodSignature>, name: string): (ps: seq<nat>)
    ensures forall k :: 0 <= k < |ps| ==> ps[k] < |methods|
  {
    if methods == [] then []
    else
      var n := |methods| - 1;
      NamedPositions(methods[..n], name) + (if methods[n].name == name then [n] else [])
  }

  /** The candidates are exactly the parameter lists of the methods named
      `name`, in declaration order: the k-th candidate comes from the method
      at the k-th named position, the positions ascend, and every method of
      that name has its position in the list. */
  lemma {:induction false} CandidatesInOrder(methods: seq<MethodSignature>, name: string)
    ensures var ps, cs := NamedPositions(methods, name), Candidates(methods, name);
      |ps| == |cs| &&
      (forall k :: 0 <= k < |ps| ==> methods[ps[k]].name == name && cs[k] == methods[ps[k]].parameters) &&
      (forall k, l :: 0 <= k < l < |ps| ==> ps[k] < ps[l]) &&
      (forall p :: 0 <= p < |methods| && methods[p].name == name ==> p in ps)
  {
    if methods != [] {
      var n := |methods| - 1;
      var init := methods[..n];
      CandidatesInOrder(init, name);
      var front, cf := NamedPositions(init, name), Candidates(init, name);
      var ps, cs := NamedPositions(methods, name), Candidates(methods, name);
      assert forall k :: 0 <= k < |front| ==> methods[front[k]] == init[front[k]];
      if methods[n].name == name {
        assert ps == front + [n] && cs == cf + [methods[n].parameters];
      } else {
        assert ps == front && cs == cf;
      }
      forall p | 0 <= p < |methods| && methods[p].name == name
        ensures p in ps
      {
        if p < n {
          assert init[p] == methods[p];
        }
      }
    }
  }

  /** The loop of `callMethod` that collects the parameter lists of the
      methods with the called name. */
  method CollectCandidates(allMethods: seq<MethodSignature>, methodName: string)
    returns (possibleParameters: seq<Signature>)
    ensures possibleParameters == Candidates(allMethods, methodName)
  {
    possibleParameters := [];
    var i := 0;
    while i < |allMethods|
      invariant 0 <= i <= |allMethods|
      invariant possibleParameters == Candidates(allMethods[..i], methodName)
    {
      assert allMethods[..i + 1][..i] == allMethods[..i];
      if allMethods[i].name == methodName {
        possibleParameters := possibleParameters + [allMethods[i].parameters];
      }
      i := i + 1;
    }
    assert allMethods[..i] == allMethods;
  }

  /** `callMethod` reads the return type at the resolved index of the full
      method list, although the index counts only the methods of the called
      name. The two agree when no method of another name comes before the
      chosen one. */
  lemma {:induction false} ReturnTypePositionAgrees(methods: seq<MethodSignature>, name: string, k: nat)
    requires k < |NamedPositions(methods, name)|
    requires forall p :: 0 <= p < NamedPositions(methods, name)[k] ==> methods[p].name == name
    ensures NamedPositions(methods, name)[k] == k
  {
    CandidatesInOrder(methods, name);
    var ps := NamedPositions(methods, name);
    if k > 0 {
      ReturnTypePositionAgrees(methods, name, k - 1);
      assert ps[k - 1] < ps[k];
    }
    if ps[k] > k {
      assert methods[k].name == name;
      var j :| 0 <= j < |ps| && ps[j] == k;
      assert false;
    }
  }

  /** A class with a void method `describe` declared before a method `bark`
      that returns a string: a call of `bark` resolves to candidate 0, and
      the return type read at position 0 of the full list is `describe`'s,
      so the call is sent without a correlation id. */
  lemma ReturnTypeMisread()
    ensures var methods := [MethodSignature("describe", [], Void), MethodSignature("bark", [], "string")];
      Candidates(methods, "bark") == [[]] &&
      FirstMatch(Candidates(methods, "bark"), [], true) == 0 &&
      NamedPositions(methods, "bark") == [1] &&
      methods[0].returnType == Void && methods[1].returnType != Void
  {
    var methods := [MethodSignature("describe", [], Void), MethodSignature("bark", [], "string")];
    assert methods[..1] == [methods[0]];
    assert methods[..1][..0] == [];
    assert NamedPositions(methods[..1], "bark") == [];
  }

  class LanguageServer {
    /** The accepted connections; the endpoint numbered i is `langs[i]`. */
    var langs: seq<LanguageHandler>
    /** The number the next accepted connection gets. */
    var langId: nat
    /** Class name or variable key to the number of the endpoint that owns it. */
    var langMap: map<string, nat>
    /** Class name to descriptor, variable key to class name. */
    var dataMap: map<string, Entry>
    /** Correlation id to the number of the endpoint waiting for the value. */
    var returnMap: map<nat, nat>
    /** The next correlation id. */
    var returnId: nat

    /** The broker's invariant: endpoint numbers index `langs`, the two maps
        have one set of keys, owners and waiters are connected endpoints, and
        every correlation id handed out lies in [1, returnId). */
    ghost predicate Valid()
      reads this
    {
      langId == |langs| &&
      (forall i :: 0 <= i < |langs| ==> langs[i].id == i) &&
      langMap.Keys == dataMap.Keys &&
      (forall key :: key in langMap ==> langMap[key] < |langs|) &&
      returnId >= 1 &&
      (forall c :: c in returnMap ==> 1 <= c < returnId && returnMap[c] < |langs|)
    }

    constructor ()
      ensures Valid()
      ensures langs == [] && langMap == map[] && dataMap == map[] && returnMap == map[]
      ensures returnId == 1
    {
      langs := [];
      langId := 0;
      langMap := map[];
      dataMap := map[];
      returnMap := map[];
      returnId := 1;
    }

    /** A newly accepted connection: a handler numbered `langId++` joins
        `langs`. */
    method Connect(render: Payload -> string) returns (h: LanguageHandler)
      requires Valid()
      modifies this`langs, this`langId
      ensures Valid() && fresh(h)
      ensures langs == old(langs) + [h] && h.id == old(langId)
      ensures h.render == render && h.shouldRun && h.strictTypes && h.outgoing == []
    {
      h := new LanguageHandler(langId, render);
      langId := langId + 1;
      langs := langs + [h];
    }

    /** `registerClass`: the class is owned by the registering endpoint. A
        class of the same name registered earlier is silently replaced, by
        this or any other endpoint. */
    method RegisterClass(id: nat, classData: ClassDescriptor)
      requires Valid() && id < |langs|
      modifies this`langMap, this`dataMap
      ensures Valid()
      ensures langMap == old(langMap)[classData.name := id]
      ensures dataMap == old(dataMap)[classData.name := ClassData(classData)]
    {
      langMap := langMap[classData.name := id];
      dataMap := dataMap[classData.name := ClassData(classData)];
    }

    /** `createObject`: the constructors are resolved with the owning
        endpoint's strictness. An unknown class or no fitting constructor
        changes nothing. On success the variable is bound to the owner and
        the class, and the owner, and no other endpoint, receives one
        CreateObject frame that carries the arguments as they came, unless
        the formatter rejects it: then the binding stays and no frame is
        queued. */
    method CreateObject(id: nat, className: string, varName: string, args: seq<Arg>)
      returns (outcome: Outcome)
      requires Valid()
      requires className in dataMap ==> dataMap[className].ClassData?
      modifies this`langMap, this`dataMap, langs`outgoing
      ensures Valid() && langs == old(langs)
      ensures className !in old(langMap) ==>
        outcome == InvalidObject(UnknownClass(className)) &&
        langMap == old(langMap) && dataMap == old(dataMap) &&
        forall h :: h in langs ==> h.outgoing == old(h.outgoing)
      ensures className in old(langMap) ==>
        var owner := old(langMap[className]);
        var constructors := old(dataMap[className]).descriptor.constructors;
        var k := FirstMatch(constructors, args, old(langs[owner].strictTypes));
        if k < 0 then
          outcome == InvalidObject(NoMatch(args, constructors)) &&
          langMap == old(langMap) && dataMap == old(dataMap) &&
          forall h :: h in langs ==> h.outgoing == old(h.outgoing)
        else
          var frame := Frame(Op.CreateObject, 0, langs[owner].render(Invocation(className, args, varName)));
          outcome == Written(frame) &&
          langMap == old(langMap)[VarKey(varName) := owner] &&
          dataMap == old(dataMap)[VarKey(varName) := VarClass(className)] &&
          langs[owner].outgoing == old(langs[owner].outgoing) + Queued(frame) &&
          forall i :: 0 <= i < |langs| && i != owner ==> langs[i].outgoing == old(langs[i].outgoing)
    {
      if className !in langMap {
        return InvalidObject(UnknownClass(className));
      }
      var langNum := langMap[className];
      var isStrict := langs[langNum].strictTypes;
      var classData := dataMap[className].descriptor;
      var constructors := classData.constructors;
      var constructorIndex := MatchParams(constructors, args, isStrict);
      if constructorIndex == -1 {
        return InvalidObject(NoMatch(args, constructors));
      }
      // The chosen constructor is looked up but not used: the endpoint
      // receives the arguments and resolves the constructor itself.
      var chosen := constructors[constructorIndex];
      langMap := langMap[VarKey(varName) := langNum];
      dataMap := dataMap[VarKey(varName) := VarClass(className)];
      var queued := langs[langNum].CreateObject(className, varName, args);
      outcome := if queued then Ok else FormatFailure;
    }

    /** `callMethod`: the candidates are the methods of the variable's class
        with the called name, resolved with the owning endpoint's strictness.
        No fitting overload changes nothing. Otherwise the owner, and no
        other endpoint, receives one CallMethod frame; when the return type
        read for it is not void, the frame carries the next correlation id,
        which is fresh, is recorded as awaited by the caller, and is then
        advanced; a void call carries id 0 and leaves the correlation state
        alone. When the formatter rejects the frame, nothing is queued but
        the correlation state has already changed. */
    method CallMethod(id: nat, varName: string, methodName: string, args: seq<Arg>)
      returns (outcome: Outcome)
      requires Valid() && id < |langs|
      requires VarKey(varName) in dataMap && dataMap[VarKey(varName)].VarClass?
      requires dataMap[VarKey(varName)].className in dataMap
      requires dataMap[dataMap[VarKey(varName)].className].ClassData?
      modifies this`returnMap, this`returnId, langs`outgoing
      ensures Valid() && langs == old(langs)
      ensures langMap == old(langMap) && dataMap == old(dataMap)
      ensures
        var owner := old(langMap[VarKey(varName)]);
        var methods := old(dataMap[dataMap[VarKey(varName)].className]).descriptor.methods;
        var candidates := Candidates(methods, methodName);
        var k := FirstMatch(candidates, args, old(langs[owner].strictTypes));
        if k < 0 then
          outcome == InvalidObject(NoMatch(args, candidates)) &&
          returnMap == old(returnMap) && returnId == old(returnId) &&
          forall h :: h in langs ==> h.outgoing == old(h.outgoing)
        else
          var awaited := methods[k].returnType != Void;
          var sentId := if awaited then old(returnId) else 0;
          var frame := Frame(Op.CallMethod, sentId, langs[owner].render(Invocation(methodName, args, varName)));
          outcome == Written(frame) &&
          (awaited ==>
            old(returnId) >= 1 && old(returnId) !in old(returnMap) &&
            returnMap == old(returnMap)[old(returnId) := id] && returnId == old(returnId) + 1) &&
          (!awaited ==> returnMap == old(returnMap) && returnId == old(returnId)) &&
          langs[owner].outgoing == old(langs[owner].outgoing) + Queued(frame) &&
          forall i :: 0 <= i < |langs| && i != owner ==> langs[i].outgoing == old(langs[i].outgoing)
    {
      var key := VarKey(varName);
      var className := dataMap[key].className;
      var classData := dataMap[className].descriptor;
      var allMethods := classData.methods;
      var possibleParameters := CollectCandidates(allMethods, methodName);
      var langNum := langMap[key];
      var methodIndex := MatchParams(possibleParameters, args, langs[langNum].strictTypes);
      if methodIndex == -1 {
        return InvalidObject(NoMatch(args, possibleParameters));
      }
      // The index counts the methods of the called name only, but is applied
      // to the full method list.
      var returnType := allMethods[methodIndex].returnType;
      var queued;
      if returnType != Void {
        returnMap := returnMap[returnId := id];
        // `returnId++` is evaluated before the handler writes the frame.
        var sentId := returnId;
        returnId := returnId + 1;
        queued := langs[langNum].CallMethod(varName, methodName, sentId, args);
      } else {
        queued := langs[langNum].CallMethod(varName, methodName, 0, args);
      }
      outcome := if queued then Ok else FormatFailure;
    }

    /** `returnValue`: the value goes, as a Return frame with id 0, to the
        endpoint recorded for the correlation id and to no other, unless the
        formatter rejects it: then the value is lost. The entry stays in the
        correlation table. */
    method ReturnValue(id: nat, returnID: nat, returnVal: string, returnType: string)
      returns (outcome: Outcome)
      requires Valid() && returnID in returnMap
      modifies langs`outgoing
      ensures Valid() && langs == old(langs)
      ensures var waiter := returnMap[returnID];
        var frame := Frame(Op.Return, 0, langs[waiter].render(ReturnData(returnVal, returnType)));
        outcome == Written(frame) &&
        langs[waiter].outgoing == old(langs[waiter].outgoing) + Queued(frame) &&
        forall i :: 0 <= i < |langs| && i != waiter ==> langs[i].outgoing == old(langs[i].outgoing)
    {
      var queued := langs[returnMap[returnID]].ReturnValue(returnVal, returnType);
      outcome := if queued then Ok else FormatFailure;
    }
  }

  /** The first half of a session: endpoint 1 registers a class `Dog` with
      a constructor without parameters and the given methods, and endpoint 0
      creates a `Dog` named `rex`. */
  method DogSession(render: Payload -> string, methods: seq<MethodSignature>)
    returns (server: LanguageServer, caller: LanguageHandler, owner: LanguageHandler, created: Outcome)
    ensures fresh(server) && fresh(caller) && fresh(owner)
    ensures server.Valid() && server.langs == [caller, owner]
    ensures caller.render == render && owner.render == render && owner.strictTypes
    ensures VarKey("rex") in server.dataMap && server.dataMap[VarKey("rex")] == VarClass("Dog")
    ensures VarKey("rex") in server.langMap && server.langMap[VarKey("rex")] == 1
    ensures "Dog" in server.dataMap && server.dataMap["Dog"] == ClassData(ClassDescriptor("Dog", [[]], methods))
    ensures server.returnMap == map[] && server.returnId == 1
    ensures caller.outgoing == []
    ensures var f := Frame(Op.CreateObject, 0, render(Invocation("Dog", [], "rex")));
      created == Written(f) && owner.outgoing == Queued(f)
  {
    assert FirstMatch([[]], [], true) == 0;
    server := new LanguageServer();
    caller := server.Connect(render);
    owner := server.Connect(render);
    server.RegisterClass(1, ClassDescriptor("Dog", [[]], methods));
    assert server.langMap == map["Dog" := 1];
    created := server.CreateObject(0, "Dog", "rex", []);
    assert VarKey("rex") != "Dog";
  }

  /** One session from end to end: after `DogSession` with a method `bark`
      that returns a string, endpoint 0 calls `bark` on `rex`, and endpoint
      1 answers under the correlation id it was given. Endpoint 1 receives
      the construction and the call, the call under id 1; endpoint 0
      receives exactly the value endpoint 1 produced, tagged with its type.
      A frame the formatter rejects ends the session there: after the
      construction or the call, endpoint 0's thread ends; after the answer,
      endpoint 1's, and the value never arrives. */
  method ReturnRoundTrip(render: Payload -> string, value: string, tag: string)
    returns (sent: seq<string>, delivered: seq<string>)
    ensures var create := Frame(Op.CreateObject, 0, render(Invocation("Dog", [], "rex")));
      var call := Frame(Op.CallMethod, 1, render(Invocation("bark", [], "rex")));
      var answer := Frame(Op.Return, 0, render(ReturnData(value, tag)));
      sent == Queued(create) + (if create.Some? then Queued(call) else []) &&
      delivered == (if create.Some? && call.Some? then Queued(answer) else [])
    ensures ('%' !in render(Invocation("Dog", [], "rex")) && '%' !in render(Invocation("bark", [], "rex")) &&
      '%' !in render(ReturnData(value, tag))) ==>
      sent == [
        PlainFrame(Op.CreateObject, 0, render(Invocation("Dog", [], "rex"))),
        PlainFrame(Op.CallMethod, 1, render(Invocation("bark", [], "rex")))] &&
      delivered == [PlainFrame(Op.Return, 0, render(ReturnData(value, tag)))]
  {
    var bark := MethodSignature("bark", [], "string");
    assert [bark][..0] == [];
    assert Candidates([bark], "bark") == [[]];
    assert FirstMatch([[]], [], true) == 0;
    var server, caller, owner, created := DogSession(render, [bark]);
    if created == Ok {
      var called := server.CallMethod(0, "rex", "bark", []);
      if called == Ok {
        assert server.returnMap == map[1 := 0];
        var returned := server.ReturnValue(1, 1, value, tag);
      }
    }
    sent := owner.outgoing;
    delivered := caller.outgoing;
  }

  /** The misread return type in a session: the class declares the void
      method `describe` before `bark`, which returns a string. The call of
      `bark` is sent with id 0, and no correlation id is recorded, so the
      caller's wait for the value is never answered. */
  method MisreadSession(render: Payload -> string)
    returns (awaited: map<nat, nat>, nextId: nat, sent: seq<string>)
    ensures awaited == map[] && nextId == 1
    ensures var create := Frame(Op.CreateObject, 0, render(Invocation("Dog", [], "rex")));
      var call := Frame(Op.CallMethod, 0, render(Invocation("bark", [], "rex")));
      sent == Queued(create) + (if create.Some? then Queued(call) else [])
  {
    var methods := [MethodSignature("describe", [], Void), MethodSignature("bark", [], "string")];
    assert methods[..1] == [methods[0]] && methods[..1][..0] == [];
    assert Candidates(methods[..1], "bark") == [];
    assert Candidates(methods, "bark") == [[]];
    assert FirstMatch([[]], [], true) == 0;
    var server, caller, owner, created := DogSession(render, methods);
    if created == Ok {
      var called := server.CallMethod(0, "rex", "bark", []);
    }
    awaited, nextId, sent := server.returnMap, server.returnId, owner.outgoing;
  }
}
