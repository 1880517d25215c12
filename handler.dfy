/** One broker-side connection, `LanguageHandler`: the endpoint's type
    strictness, its run flag and the queue of outgoing lines, with the frame
    builders the broker calls to send instructions to the endpoint. */
module Handler {
  import opened Wire
  import opened Overload

  /** The JSON objects a handler builds for the endpoint. */
  datatype Payload =
    /** `{name, arguments, varName}`: the body of a CreateObject frame (a
        class name) and of a CallMethod frame (a method name). */
    | Invocation(name: string, arguments: seq<Arg>, varName: string)
    /** `{returnVal, returnType}`: the body of a Return frame. */
    | ReturnData(returnVal: string, returnType: string)

  /** The parsed body of an Init frame, `{strictTypes}`. */
  datatype InitData = InitData(strictTypes: bool)

  class LanguageHandler {
    /** The endpoint's number, given when the connection was accepted. */
    const id: nat
    /** The JSON text of a payload (`toJSONString`). */
    const render: Payload -> string

    var shouldRun: bool
    var strictTypes: bool
    /** The outgoing queue, oldest line first; the writer drains it from the
        front. */
    var outgoing: seq<string>

    constructor (id: nat, render: Payload -> string)
      ensures this.id == id && this.render == render
      ensures shouldRun && strictTypes && outgoing == []
    {
      this.id := id;
      this.render := render;
      shouldRun := true;
      strictTypes := true;
      outgoing := [];
    }

    /** `init`: the endpoint declares its strictness. */
    method Init(data: InitData)
      modifies this`strictTypes
      ensures strictTypes == data.strictTypes
    {
      strictTypes := data.strictTypes;
    }

    method SetStrictTypes(strictTypes: bool)
      modifies this`strictTypes
      ensures this.strictTypes == strictTypes
    {
      this.strictTypes := strictTypes;
    }

    /** `stop`: only the run flag changes. */
    method Stop()
      modifies this`shouldRun
      ensures !shouldRun
    {
      shouldRun := false;
    }

    /** `writeCommand(op, returnId, str)`: the built line, read once more as
        a format string, goes to the tail of the queue; every line already
        queued stays where it was. When the formatter rejects the line,
        `queued` is false and the queue is as it was: the Java method throws
        an unchecked exception instead. */
    method WriteCommand(op: Op, returnId: nat, str: string) returns (queued: bool)
      modifies this`outgoing
      ensures queued == Frame(op, returnId, str).Some?
      ensures outgoing == old(outgoing) + Queued(Frame(op, returnId, str))
    {
      var line := Frame(op, returnId, str);
      if line.Some? {
        outgoing := outgoing + [line.value];
        queued := true;
      } else {
        queued := false;
      }
    }

    /** `writeCommand(op, str)`: the same as with correlation id 0. */
    method WriteUncorrelated(op: Op, str: string) returns (queued: bool)
      modifies this`outgoing
      ensures queued == Frame(op, 0, str).Some?
      ensures outgoing == old(outgoing) + Queued(Frame(op, 0, str))
    {
      queued := WriteCommand(op, 0, str);
    }

    /** `createObject`: tells the endpoint to construct an object; the frame
        carries id 0. */
    method CreateObject(className: string, objName: string, params: seq<Arg>) returns (queued: bool)
      modifies this`outgoing
      ensures var f := Frame(Op.CreateObject, 0, render(Invocation(className, params, objName)));
        queued == f.Some? && outgoing == old(outgoing) + Queued(f)
    {
      queued := WriteUncorrelated(Op.CreateObject, render(Invocation(className, params, objName)));
    }

    /** `callMethod`: tells the endpoint to run a method; the frame carries
        the correlation id the broker chose (0 when no value is awaited). */
    method CallMethod(varName: string, methodName: string, returnId: nat, args: seq<Arg>) returns (queued: bool)
      modifies this`outgoing
      ensures var f := Frame(Op.CallMethod, returnId, render(Invocation(methodName, args, varName)));
        queued == f.Some? && outgoing == old(outgoing) + Queued(f)
    {
      queued := WriteCommand(Op.CallMethod, returnId, render(Invocation(methodName, args, varName)));
    }

    /** `returnValue`: hands a return value to the waiting endpoint; the
        frame carries id 0 and the payload holds no correlation id. */
    method ReturnValue(returnValue: string, returnType: string) returns (queued: bool)
      modifies this`outgoing
      ensures var f := Frame(Op.Return, 0, render(ReturnData(returnValue, returnType)));
        queued == f.Some? && outgoing == old(outgoing) + Queued(f)
    {
      queued := WriteUncorrelated(Op.Return, render(ReturnData(returnValue, returnType)));
    }
  }
}
