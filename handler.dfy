// octavia/api/v1/handler.py: the no-op handler the API controllers call. It
// finds the load balancer that owns the changed entity and runs one of three
// load balancer actions chosen by the change type.

module Handler {
  import opened Values

  /** HandlerChangeTypes, plus any other string a caller might pass. */
  datatype ChangeType = CREATE | UPDATE | DELETE | OtherChange(name: string)

  /** The parts of a data model the dispatch reads: its relationship links, each possibly None. */
  datatype LoadBalancerRef = LoadBalancerRef(id: Value)
  datatype ListenerRef = ListenerRef(loadBalancer: Option<LoadBalancerRef>)
  datatype PoolRef = PoolRef(listener: Option<ListenerRef>)

  /** The object passed to `handle`, by its class. */
  datatype Entity =
    | HealthMonitorE(pool: Option<PoolRef>)
    | MemberE(pool: Option<PoolRef>)
    | PoolE(listener: Option<ListenerRef>)
    | ListenerE(loadBalancer: Option<LoadBalancerRef>)
    | LoadBalancerE(lb: LoadBalancerRef)
    | OtherE(className: string)

  /** The three load balancer actions of the handler. */
  datatype Action = CreateLoadBalancer(lb: LoadBalancerRef) | UpdateLoadBalancer(lb: LoadBalancerRef) | DeleteLoadBalancer(lb: LoadBalancerRef)

  // ------------------------------------------- the exception's message

  /** A parsed `%`-format template: literal text and `%(key)` specifiers with their conversion character, if any. */
  datatype Piece = Lit(text: string) | Key(name: string, conversion: Option<char>)

  /**
   * `template % kwargs` on a parsed template, for the two specifier forms
   * the handler's templates use. Specifiers are read left to right; the key
   * of each is looked up as soon as its `)` is read, so a missing key is a
   * KeyError whatever follows. A `%(key)` with no conversion character is
   * then "incomplete format" (ValueError), and `%(key)s` inserts the value.
   * Other conversion characters are not modelled and are refused here with
   * ValueError.
   */
  function Format(pieces: seq<Piece>, args: map<string, string>): (r: Result<string>)
    ensures r.Ok? ==> forall i :: 0 <= i < |pieces| && pieces[i].Key? ==>
      pieces[i].conversion == Some('s') && pieces[i].name in args
    ensures (forall i :: 0 <= i < |pieces| ==>
      (pieces[i].Lit? || (pieces[i].conversion == Some('s') && pieces[i].name in args))) ==> r.Ok?
    ensures r == Err(KeyError) ==> exists i :: 0 <= i < |pieces| && pieces[i].Key? && pieces[i].name !in args
    ensures r == Err(ValueError) ==>
      exists i :: 0 <= i < |pieces| && pieces[i].Key? && pieces[i].name in args && pieces[i].conversion != Some('s')
    ensures r.Err? ==> r.error == KeyError || r.error == ValueError
  {
    if pieces == [] then Ok([])
    else
      var head :=
        match pieces[0]
        case Lit(text) => Ok(text)
        case Key(name, conversion) =>
          if name !in args then Err(KeyError)
          else if conversion.None? then Err(ValueError)
          else if conversion.value != 's' then Err(ValueError)
          else Ok(args[name]);
      match head
      case Err(e) => Err(e)
      case Ok(h) =>
        match Format(pieces[1..], args)
        case Err(e) => Err(e)
        case Ok(t) => Ok(h + t)
  }

  /** InvalidHandlerInputObject.message as written: "Invalid Input Object %(obj_type)", with no conversion character. */
  const InvalidInputMessageAsWritten: seq<Piece> := [Lit("Invalid Input Object "), Key("obj_type", None)]

  /** The evidently intended message, "Invalid Input Object %(obj_type)s". */
  const InvalidInputMessage: seq<Piece> := [Lit("Invalid Input Object "), Key("obj_type", Some('s'))]

  /**
   * Building the exception as written always fails while formatting its
   * message: with `obj_type` supplied, as `handle` does, the specifier is
   * incomplete (ValueError); without it the lookup fails first (KeyError).
   */
  lemma {:induction false} InvalidInputMessageAsWrittenFails(args: map<string, string>)
    ensures "obj_type" in args ==> Format(InvalidInputMessageAsWritten, args) == Err(ValueError)
    ensures "obj_type" !in args ==> Format(InvalidInputMessageAsWritten, args) == Err(KeyError)
  {
    if "obj_type" in args {
      assert Format(InvalidInputMessageAsWritten[1..], args) == Err(ValueError);
    } else {
      assert Format(InvalidInputMessageAsWritten[1..], args) == Err(KeyError);
    }
  }

  /** The intended message formats for any class name. */
  lemma {:induction false} InvalidInputMessageFormats(className: string)
    ensures Format(InvalidInputMessage, map["obj_type" := className]) == Ok("Invalid Input Object " + className)
  {
    var args := map["obj_type" := className];
    assert InvalidInputMessage[1..] == [Key("obj_type", Some('s'))];
    assert Format([Key("obj_type", Some('s'))], args) == Ok(className) by {
      assert [Key("obj_type", Some('s'))][1..] == [];
      assert Format([], args) == Ok([]);
      assert className + [] == className;
    }
  }

  // ------------------------------------------------------- dispatch

  /**
   * The load balancer `handle` passes on: HealthMonitor and Member go
   * through `pool.listener.load_balancer`, Pool through
   * `listener.load_balancer`, Listener through `load_balancer`; a
   * LoadBalancer is its own owner. Reading a link of None is an
   * AttributeError; the last link may itself be None. Any other class
   * raises InvalidHandlerInputObject.
   */
  function Owner(e: Entity): (r: Result<Option<LoadBalancerRef>>)
    ensures r == Err(InvalidHandlerInputObject) <==> e.OtherE?
    ensures r.Err? ==> r.error == AttributeError || r.error == InvalidHandlerInputObject
    ensures e.LoadBalancerE? ==> r == Ok(Some(e.lb))
    ensures e.ListenerE? ==> r == Ok(e.loadBalancer)
    ensures e.PoolE? ==> (r.Err? <==> e.listener.None?)
    ensures e.HealthMonitorE? || e.MemberE? ==> (r.Err? <==> e.pool.None? || e.pool.value.listener.None?)
  {
    match e
    case HealthMonitorE(pool) => if pool.None? || pool.value.listener.None? then Err(AttributeError) else Ok(pool.value.listener.value.loadBalancer)
    case MemberE(pool) => if pool.None? || pool.value.listener.None? then Err(AttributeError) else Ok(pool.value.listener.value.loadBalancer)
    case PoolE(listener) => if listener.None? then Err(AttributeError) else Ok(listener.value.loadBalancer)
    case ListenerE(loadBalancer) => Ok(loadBalancer)
    case LoadBalancerE(lb) => Ok(Some(lb))
    case OtherE(_) => Err(InvalidHandlerInputObject)
  }

  /**
   * _handle_change_type: three independent `if`s, one per change type, each
   * running its load balancer action, which reads `load_balancer.id` (an
   * AttributeError on None). CREATE, UPDATE and DELETE each run exactly their
   * own action; any other change type runs none and cannot fail.
   */
  function HandleChangeType(lb: Option<LoadBalancerRef>, change: ChangeType): (r: Result<seq<Action>>)
    ensures change.OtherChange? ==> r == Ok([])
    ensures !change.OtherChange? && lb.None? ==> r == Err(AttributeError)
    ensures change == CREATE && lb.Some? ==> r == Ok([CreateLoadBalancer(lb.value)])
    ensures change == UPDATE && lb.Some? ==> r == Ok([UpdateLoadBalancer(lb.value)])
    ensures change == DELETE && lb.Some? ==> r == Ok([DeleteLoadBalancer(lb.value)])
  {
    if change.OtherChange? then Ok([])
    else if lb.None? then Err(AttributeError)
    else
      var created := if change == CREATE then [CreateLoadBalancer(lb.value)] else [];
      var updated := if change == UPDATE then [UpdateLoadBalancer(lb.value)] else [];
      var deleted := if change == DELETE then [DeleteLoadBalancer(lb.value)] else [];
      var actions := created + updated + deleted;
      var owner := lb.value;
      assert |actions| == 1 && actions[0] ==
        if change == CREATE then CreateLoadBalancer(owner)
        else if change == UPDATE then UpdateLoadBalancer(owner)
        else DeleteLoadBalancer(owner);
      assert actions == [actions[0]];
      Ok(actions)
  }

  /** NoopLoggingLoadBalancerHandler.handle. */
  function Handle(e: Entity, change: ChangeType): (r: Result<seq<Action>>)
    ensures e.OtherE? ==> r == Err(InvalidHandlerInputObject)
    ensures r.Err? ==> r.error == AttributeError || r.error == InvalidHandlerInputObject
    ensures r.Ok? ==> |r.value| <= 1 && (r.value == [] <==> change.OtherChange?)
    ensures r.Ok? && r.value != [] ==> Owner(e) == Ok(Some(r.value[0].lb))
    ensures Owner(e).Ok? && (Owner(e).value.Some? || change.OtherChange?) ==> r.Ok?
  {
    match Owner(e)
    case Err(err) => Err(err)
    case Ok(lb) => HandleChangeType(lb, change)
  }

  /**
   * What `raise InvalidHandlerInputObject(obj_type=...)` raises with the
   * message `template`, constructor as written: formatting the message may
   * fail; otherwise the message is passed to `Exception.__init__` as the
   * keyword `message`, which Exception does not accept (TypeError).
   */
  function RaiseInvalidInputAsWritten(template: seq<Piece>, className: string): Error
  {
    match Format(template, map["obj_type" := className])
    case Err(err) => err
    case Ok(_) => TypeError
  }

  /** handle as written: the unknown-class branch fails while building InvalidHandlerInputObject. */
  function HandleAsWritten(e: Entity, change: ChangeType): (r: Result<seq<Action>>)
    ensures e.OtherE? ==> r == Err(ValueError)
    ensures !e.OtherE? ==> r == Handle(e, change)
  {
    if e.OtherE? then
      InvalidInputMessageAsWrittenFails(map["obj_type" := e.className]);
      Err(RaiseInvalidInputAsWritten(InvalidInputMessageAsWritten, e.className))
    else Handle(e, change)
  }

  /** As written, an object of any other class raises ValueError instead of InvalidHandlerInputObject. */
  lemma {:induction false} HandleAsWrittenRaisesValueError(className: string, change: ChangeType)
    ensures HandleAsWritten(OtherE(className), change) == Err(ValueError)
    ensures Handle(OtherE(className), change) == Err(InvalidHandlerInputObject)
  {
    InvalidInputMessageAsWrittenFails(map["obj_type" := className]);
  }

  /**
   * Correcting the message alone is not enough: with `%(obj_type)s` the
   * constructor as written still fails, in `Exception.__init__`, with
   * TypeError. Raising InvalidHandlerInputObject needs both corrections.
   */
  lemma {:induction false} MessageFixAloneRaisesTypeError(className: string)
    ensures RaiseInvalidInputAsWritten(InvalidInputMessage, className) == TypeError
  {
    InvalidInputMessageFormats(className);
  }

  // ------------------------------------- the owner, one link at a time

  /** The next object up the ownership chain, or the load balancer reached; None when a link is missing. */
  datatype Step = Up(parent: Entity) | Reached(lb: Option<LoadBalancerRef>) | Broken | NotHandled

  function Parent(e: Entity): Step
  {
    match e
    case HealthMonitorE(pool) => if pool.None? then Broken else Up(PoolE(pool.value.listener))
    case MemberE(pool) => if pool.None? then Broken else Up(PoolE(pool.value.listener))
    case PoolE(listener) => if listener.None? then Broken else Up(ListenerE(listener.value.loadBalancer))
    case ListenerE(loadBalancer) => Reached(loadBalancer)
    case LoadBalancerE(lb) => Reached(Some(lb))
    case OtherE(_) => NotHandled
  }

  /** How many links separate an entity from its load balancer. */
  function Depth(e: Entity): nat
  {
    match e
    case HealthMonitorE(_) => 2
    case MemberE(_) => 2
    case PoolE(_) => 1
    case _ => 0
  }

  /** The owner found by following Parent links. */
  function Root(e: Entity): Result<Option<LoadBalancerRef>>
    decreases Depth(e)
  {
    match Parent(e)
    case Up(p) => assert Depth(p) < Depth(e); Root(p)
    case Reached(lb) => Ok(lb)
    case Broken => Err(AttributeError)
    case NotHandled => Err(InvalidHandlerInputObject)
  }

  /** handle's hard-wired chains agree with following the links one at a time. */
  lemma {:induction false} OwnerIsRoot(e: Entity)
    ensures Owner(e) == Root(e)
    decreases Depth(e)
  {
    match Parent(e)
    case Up(p) =>
      OwnerIsRoot(p);
    case _ =>
  }
}
