/**
  The signature check at the top of Register: which reflect types a handler
  may have. A handler must look like
  func(context.Context, *Request, *Response) error.
 */
module Shape {
  import opened Values

  datatype NamedKind = Interface | Struct | Basic

  /**
    A reflect.Type, reduced to what Register inspects. A named type carries
    the methods declared with a value receiver and those declared with a
    pointer receiver (for an interface, its methods and no pointer methods).
   */
  datatype TypeDesc =
    | FuncType(ins: seq<TypeDesc>, outs: seq<TypeDesc>)
    | PointerType(elem: TypeDesc)
    | SliceType(elem: TypeDesc)
    | NamedType(name: string, kind: NamedKind, methods: set<string>, ptrMethods: set<string>)

  const ContextMethods: set<string> := {"Deadline", "Done", "Err", "Value"}
  const ErrorMethods: set<string> := {"Error"}

  /** The method set of a type: *T has the methods of both receivers; a pointer to an interface has none. */
  function MethodSet(t: TypeDesc): set<string>
  {
    match t
    case NamedType(_, _, ms, _) => ms
    case PointerType(NamedType(_, kind, ms, pms)) => if kind == Interface then {} else ms + pms
    case _ => {}
  }

  /** reflect.Type.Implements, with methods compared by name. */
  predicate Implements(t: TypeDesc, iface: set<string>)
  {
    iface <= MethodSet(t)
  }

  /** reflect.Type.Elem: defined for pointers and slices, a panic (None) otherwise. */
  function Elem(t: TypeDesc): Option<TypeDesc>
  {
    match t
    case PointerType(e) => Some(e)
    case SliceType(e) => Some(e)
    case _ => None
  }

  /** The request and response struct types a well-shaped handler points to. */
  datatype ArgTypes = ArgTypes(request: TypeDesc, response: TypeDesc)

  /** Every condition Register demands of a handler's type, all at once. */
  predicate WellShaped(t: TypeDesc)
  {
    && t.FuncType?
    && |t.ins| == 3
    && |t.outs| == 1
    && Implements(t.ins[0], ContextMethods)
    && t.ins[1].PointerType?
    && t.ins[2].PointerType?
    && Implements(t.outs[0], ErrorMethods)
  }

  /**
    The checks of Register in the order it makes them, each rejection (a
    panic) collapsed into None; `Elem` runs on inputs 1 and 2 before they are
    checked to be pointers, and panics itself on a type that has no element.
   */
  function CheckHandler(t: TypeDesc): (r: Option<ArgTypes>)
    ensures r.Some? ==> && t.FuncType? && |t.ins| == 3 && |t.outs| == 1
                        && t.ins[1] == PointerType(r.value.request)
                        && t.ins[2] == PointerType(r.value.response)
  {
    if !t.FuncType? then None
    else if |t.ins| != 3 then None
    else if |t.outs| != 1 then None
    else
      match (Elem(t.ins[1]), Elem(t.ins[2]))
      case (Some(request), Some(response)) =>
        if !Implements(t.ins[0], ContextMethods) then None
        else if !t.ins[1].PointerType? then None
        else if !t.ins[2].PointerType? then None
        else if !Implements(t.outs[0], ErrorMethods) then None
        else Some(ArgTypes(request, response))
      case _ => None
  }

  /**
    Register accepts a handler exactly when its type is well shaped, and then
    the request and response types are what inputs 1 and 2 point to.
   */
  lemma CheckHandlerExactly(t: TypeDesc)
    ensures CheckHandler(t).Some? <==> WellShaped(t)
    ensures CheckHandler(t).Some? ==> CheckHandler(t).value == ArgTypes(t.ins[1].elem, t.ins[2].elem)
  {
  }

  const ContextType: TypeDesc := NamedType("context.Context", Interface, ContextMethods, {})
  const ErrorType: TypeDesc := NamedType("error", Interface, ErrorMethods, {})

  /** func(context.Context, *Req, *Resp) error, for structs Req and Resp. */
  function HandlerType(req: TypeDesc, resp: TypeDesc): TypeDesc
  {
    FuncType([ContextType, PointerType(req), PointerType(resp)], [ErrorType])
  }

  /**
    The intended signature is accepted, and changing any one part of it
    (a request or response taken by value, a pointer to the context
    interface, an extra or missing input or output, a non-error result)
    is rejected.
   */
  lemma HandlerTypeChecks(req: TypeDesc, resp: TypeDesc, other: TypeDesc)
    requires req.NamedType? && req.kind == Struct && resp.NamedType? && resp.kind == Struct
    requires !Implements(other, ErrorMethods)
    ensures CheckHandler(HandlerType(req, resp)) == Some(ArgTypes(req, resp))
    ensures CheckHandler(FuncType([ContextType, req, PointerType(resp)], [ErrorType])) == None
    ensures CheckHandler(FuncType([ContextType, PointerType(req), resp], [ErrorType])) == None
    ensures CheckHandler(FuncType([PointerType(ContextType), PointerType(req), PointerType(resp)], [ErrorType])) == None
    ensures CheckHandler(FuncType([PointerType(req), PointerType(resp)], [ErrorType])) == None
    ensures CheckHandler(FuncType([ContextType, PointerType(req), PointerType(resp)], [])) == None
    ensures CheckHandler(FuncType([ContextType, PointerType(req), PointerType(resp)], [ErrorType, ErrorType])) == None
    ensures CheckHandler(FuncType([ContextType, PointerType(req), PointerType(resp)], [other])) == None
    ensures CheckHandler(PointerType(HandlerType(req, resp))) == None
  {
    assert MethodSet(PointerType(ContextType)) == {};
    assert "Deadline" in ContextMethods;
  }

  /** gin's context struct, whose pointer receivers give it the methods of context.Context. */
  const GinContext: TypeDesc := NamedType("gin.Context", Struct, {}, ContextMethods)

  /**
    A handler taking *gin.Context, the very value the dispatcher passes,
    in place of context.Context is accepted like the intended signature.
   */
  lemma GinContextHandlerAccepted(req: TypeDesc, resp: TypeDesc)
    ensures CheckHandler(FuncType([PointerType(GinContext), PointerType(req), PointerType(resp)], [ErrorType]))
         == Some(ArgTypes(req, resp))
  {
  }
}
