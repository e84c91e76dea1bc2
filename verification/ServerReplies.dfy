/**
 * What the server makes of one message: the decisions of `inHandler`, parsing into a
 * command, the choice of a handler, and the reply that carries the id back.
 */
module ServerReplies {
  import opened Basics
  import opened GoValues
  import opened Registry
  import opened CmdCodec
  import Correlation
  import JsonCodec

  datatype RpcError = ParseError | InvalidParams | MethodNotFound | Unimplemented | Internal | FromHandler(code: int)

  datatype Response = Response(id: Id, result: Json, error: Option<RpcError>)

  /** What a handler returned: a result, or None for one json.Marshal refuses; and an error of either sort. */
  datatype HandlerError = Rpc(e: RpcError) | Plain

  datatype HandlerOut = HandlerOut(result: Option<Json>, error: Option<HandlerError>)

  /** A message from the peer: not a request document, or a request. */
  datatype Message = Garbage | Msg(req: Request)

  datatype Config = Config(
    maps: Maps, wsHandlers: set<string>, rpcHandlers: set<string>, rpcUnimplemented: set<string>,
        rpcLimited: set<string>,
    authenticated: bool, isAdmin: bool)

  function ParseCmd(r: Maps, req: Request): Result<Command, RpcError>
    requires RegInv(r)
  {
    InfosFit(r);
    match Unmarshal(r, req)
    case Ok(cmd) => Ok(cmd)
    case Err(e) => if e == ErrUnregisteredMethod then Err(MethodNotFound) else Err(InvalidParams)
  }

  function CreateMarshalledReply(id: Id, result: Option<Json>, err: Option<HandlerError>): Option<Response> {
    if result == None || !IsValidIDType(id) then None
    else
      var error := match err case None => None case Some(Rpc(e)) => Some(e) case Some(Plain) => Some(Internal);
      Some(Response(id, result.value, error))
  }

  predicate IsNotification(req: Request) {
    req.id == NilId && req.jsonrpc == ""
  }

  /** What the input handler does with a message. */
  datatype Verdict = Break | Ignore | Reply(r: Response) | Serve(id: Id, name: string)

  function ReplyOrIgnore(r: Option<Response>): Verdict {
    if r.Some? then Reply(r.value) else Ignore
  }

  function Judge(c: Config, m: Message): Verdict
    requires RegInv(c.maps)
  {
    match m
    case Garbage => if !c.authenticated then Break
        else ReplyOrIgnore(CreateMarshalledReply(NilId, Some(JNull), Some(Rpc(ParseError))))
    case Msg(req) =>
      if IsNotification(req) then (if !c.authenticated then Break else Ignore)
      else
        match ParseCmd(c.maps, req)
        case Err(e) => if !c.authenticated then Break
            else ReplyOrIgnore(CreateMarshalledReply(req.id, Some(JNull), Some(Rpc(e))))
        case Ok(_) =>
          if !c.isAdmin && req.method_ !in c.rpcLimited
          then ReplyOrIgnore(CreateMarshalledReply(req.id, Some(JNull), Some(Rpc(InvalidParams))))
          else Serve(req.id, req.method_)
  }

  /** The result of the handler that takes the method, `out` being what it returns this time. */
  function HandlerResult(c: Config, name: string, out: HandlerOut): HandlerOut {
    if name in c.wsHandlers then out
    else if name in c.rpcHandlers then out
    else if name in c.rpcUnimplemented then HandlerOut(Some(JNull), Some(Rpc(Unimplemented)))
    else HandlerOut(Some(JNull), Some(Rpc(MethodNotFound)))
  }

  function ServiceReply(c: Config, id: Id, name: string, out: HandlerOut): Option<Response> {
    var h := HandlerResult(c, name, out);
    CreateMarshalledReply(id, h.result, h.error)
  }

  // ----- Which messages are answered, and how

  /** The code answers anything but notifications and ids that are no scalars. */
  predicate Answerable(m: Message) {
    match m
    case Garbage => true
    case Msg(req) => !IsNotification(req) && IsValidIDType(req.id)
  }

  /** An answer that belongs to the message: its own id, or the null id and a parse error. */
  predicate Belongs(c: Config, m: Message, r: Response)
    requires RegInv(c.maps)
  {
    match m
    case Garbage => r == Response(NilId, JNull, Some(ParseError))
    case Msg(req) =>
      && Answerable(m) && r.id == req.id
      && (ParseCmd(c.maps, req).Err? ==> r.error == Some(ParseCmd(c.maps, req).error))
      && (ParseCmd(c.maps, req).Ok? && !c.isAdmin && req.method_ !in c.rpcLimited ==> r.error == Some(InvalidParams))
  }

  /**
   * Only an unauthenticated client is cut off; else a message goes
   * without a reply exactly when it is not answerable.
   */
  lemma JudgeExact(c: Config, m: Message)
    requires RegInv(c.maps)
    ensures Judge(c, m) == Break ==> !c.authenticated
    ensures Judge(c, m) != Break ==>
      (!Answerable(m) <==> Judge(c, m) == Ignore || (Judge(c, m).Serve? && !IsValidIDType(Judge(c, m).id)))
    ensures Judge(c, m).Reply? ==> Belongs(c, m, Judge(c, m).r)
  {
    hide Unmarshal, RegInv;
  }

  /** The request names a registered method, with as many parameters as it takes, all of their fields' types. */
  predicate Parses(r: Maps, req: Request) {
    req.method_ in r.types && req.method_ in r.infos && CountFits(r, req) && ParamsFit(r, req)
  }

  /** Parsing fails for an unregistered method as such, and else for the parameters. */
  lemma ParseExact(r: Maps, req: Request)
    requires RegInv(r)
    ensures ParseCmd(r, req).Ok? <==> Parses(r, req)
    ensures ParseCmd(r, req) == Err(MethodNotFound) <==> req.method_ !in r.types
    ensures ParseCmd(r, req) == Err(InvalidParams) <==> req.method_ in r.types && !Parses(r, req)
  {
    hide RegInv, Unmarshal, CountFits, ParamsFit;
    InfosFit(r);
    UnmarshalExact(r, req);
  }

  /** The error a request is answered with before any handler sees it, if it is. */
  function Fault(c: Config, req: Request): Option<RpcError> {
    if req.method_ !in c.maps.types then Some(MethodNotFound)
    else if !Parses(c.maps, req) then Some(InvalidParams)
    else if !c.isAdmin && req.method_ !in c.rpcLimited then Some(InvalidParams)
    else None
  }

  /**
   * The verdict on every message: a client that has not authenticated is cut off at the first message that is no
   * well-formed request; a request is served exactly when nothing is wrong with it; a message at fault is answered
   * with its fault, unless it is a notification or its id is no scalar.
   */
  lemma VerdictExact(c: Config, m: Message)
    requires RegInv(c.maps)
    ensures Judge(c, m) == Break <==>
      !c.authenticated && (m.Garbage? || (m.req.id == NilId && m.req.jsonrpc == "") || !Parses(c.maps, m.req))
    ensures Judge(c, m).Serve? <==>
      m.Msg? && !(m.req.id == NilId && m.req.jsonrpc == "") && Fault(c, m.req) == None
    ensures Judge(c, m).Serve? ==> Judge(c, m) == Serve(m.req.id, m.req.method_)
    ensures m.Garbage? && c.authenticated ==> Judge(c, m) == Reply(Response(NilId, JNull, Some(ParseError)))
    ensures m.Msg? && Judge(c, m) != Break && !Judge(c, m).Serve? ==>
      Judge(c, m) ==
        if (m.req.id == NilId && m.req.jsonrpc == "") || m.req.id.BoolId? || m.req.id.OtherId? then Ignore
        else Reply(Response(m.req.id, JNull, Fault(c, m.req)))
  {
    hide RegInv, ParseCmd, Parses;
    if m.Msg? { ParseExact(c.maps, m.req); }
  }

  /** The reply of a service, in every case. */
  lemma ServiceReplyExact(c: Config, id: Id, name: string, out: HandlerOut)
    ensures var handled := name in c.wsHandlers || name in c.rpcHandlers;
      ServiceReply(c, id, name, out) ==
        if id.BoolId? || id.OtherId? || (handled && out.result == None) then None
        else if !handled then
          Some(Response(id, JNull, Some(if name in c.rpcUnimplemented then Unimplemented else MethodNotFound)))
        else Some(Response(id, out.result.value,
          if out.error == None then None else if out.error.value == Plain then Some(Internal)
          else Some(out.error.value.e)))
  {
  }

  /**
   * A served request is answered with its own id unless its id is no scalar or its result does not marshal; the answer
   * is the handler's when there is one, its error kept or turned into an internal one, and else a refusal.
   */
  lemma ServiceExact(c: Config, m: Message, out: HandlerOut)
    requires RegInv(c.maps) && Judge(c, m).Serve?
    ensures var v := Judge(c, m); var r := ServiceReply(c, v.id, v.name, out);
      && (r == None <==> !IsValidIDType(v.id) || HandlerResult(c, v.name, out).result == None)
      && (r.Some? ==> Belongs(c, m, r.value))
      && (r.Some? && (v.name in c.wsHandlers || v.name in c.rpcHandlers) ==>
            && Some(r.value.result) == out.result && (r.value.error == None <==> out.error == None)
            && forall e :: out.error == Some(Rpc(e)) ==> r.value.error == Some(e))
      && (r.Some? && v.name !in c.wsHandlers && v.name !in c.rpcHandlers ==>
            r.value.result == JNull && r.value.error in {Some(Unimplemented), Some(MethodNotFound)})
  {
    hide Unmarshal, RegInv;
  }

  // ----- The id on its way through the server

  /** The id of a request document as `interface{}`: every number becomes a float64. */
  function DecodedId(j: Json): Id {
    match j
    case JNull => NilId
    case JBool(b) => BoolId(b)
    case JNum(Integer(n)) => FloatId(JsonCodec.FloatOf(n))
    case JNum(Real(r)) => FloatId(r)
    case JStr(s) => StringId(s)
    case _ => OtherId(j)
  }

  /**
   * A request the client marshals with a numeric id comes back,
   * whichever way it is answered, with the id rounded to 53 bits.
   */
  lemma ReplyCarriesId(c: Config, id: nat, m: Message, r: Response)
    requires RegInv(c.maps) && m.Msg? && m.req.id == DecodedId(JNum(Integer(id))) && Belongs(c, m, r)
    ensures r.id == FloatId(Correlation.Round(id) as real)
  {
    hide Unmarshal, RegInv, Correlation.Round;
  }
}
