/**
 * The main loop of the assistant. Each audio frame is checked for the wake word;
 * on a detection the hub's health is checked, a command is listened for, a stop
 * phrase ends the process, and any other command is resolved into actions which
 * are carried out in list order. The loop is modelled by the effects it performs:
 * speech output, service calls, pauses, listening, consulting the resolver and
 * terminating. The microphone, the resolver and the hub's health are inputs.
 */
module Dispatch {
  import opened Wrappers
  import opened Intent
  import opened HomeAssistant

  datatype Effect =
    | Speak(text: string)
    | Post(domain: Option<string>, service: Option<string>, entity: Option<string>, extra: map<string, string>)
    | Pause
    | Listen
    | Think
    | Terminate

  const STOP_PHRASES: seq<string> := ["stop", "exit", "shut down"]
  const GOODBYE: string := "Goodbye."
  const UNREACHABLE: string := "Home Assistant is unreachable."

  /** `o.get(key)`. */
  function Get(o: Obj, key: string): (value: Option<string>) {
    if key in o then Some(o[key]) else None
  }

  /**
   * The decision as a list of actions: a single object becomes a one-element
   * list; no decision handles like the empty list, since `if decision:` skips both.
   */
  function Normalize(d: Decision): (actions: seq<Obj>) {
    match d
    case None => []
    case Some(Object(o)) => [o]
    case Some(Array(xs)) => xs
  }

  predicate IsServiceCall(a: Obj) {
    Get(a, "action") == Some("call_service")
  }

  predicate IsChat(a: Obj) {
    Get(a, "action") == Some("chat")
  }

  /** The extra data passed for a service call: only the `source` key is carried over. */
  function SourceExtra(a: Obj): (extra: map<string, string>) {
    if "source" in a then map["source" := a["source"]] else map[]
  }

  /** The service call an action asks for. */
  function PostOf(a: Obj): (post: Effect) {
    Post(Get(a, "domain"), Get(a, "service"), Get(a, "entity_id"), SourceExtra(a))
  }

  /** What one action does: announce, call and pause; speak the chat reply; or nothing. */
  function ActionEffects(a: Obj): (effects: seq<Effect>) {
    if IsServiceCall(a) then [Speak("Executing " + Display(Get(a, "service")) + "."), PostOf(a), Pause]
    else if IsChat(a) then [Speak(Display(Get(a, "response")))]
    else []
  }

  /** The actions carried out one after the other, in list order. */
  function DispatchAll(actions: seq<Obj>): (effects: seq<Effect>)
    decreases |actions|
  {
    if actions == [] then [] else ActionEffects(actions[0]) + DispatchAll(actions[1..])
  }

  /** `command in ["stop", "exit", "shut down"]`. */
  predicate IsStopPhrase(heard: Option<string>) {
    heard.Some? && heard.value in STOP_PHRASES
  }

  /** `if command:`: something non-empty was heard. */
  predicate HeardCommand(heard: Option<string>) {
    heard.Some? && heard.value != ""
  }

  /** A wake word was detected, the hub answered and a stop phrase was heard. */
  predicate EndsProcess(wake: int, healthy: bool, heard: Option<string>) {
    wake >= 0 && healthy && IsStopPhrase(heard)
  }

  /**
   * The effects of one pass of the loop body. `wake` is the wake-word engine's
   * result for the frame, `healthy` whether the hub answered, `heard` the
   * transcript (None when nothing was recognised) and `resolve` the intent resolver.
   */
  function PlanCycle(wake: int, healthy: bool, heard: Option<string>, resolve: string -> Decision)
    : (effects: seq<Effect>)
  {
    if wake < 0 then []
    else if !healthy then [Speak(UNREACHABLE)]
    else if IsStopPhrase(heard) then [Pause, Listen, Speak(GOODBYE), Terminate]
    else if HeardCommand(heard) then [Pause, Listen, Think] + DispatchAll(Normalize(resolve(heard.value)))
    else [Pause, Listen]
  }

  lemma {:induction false} DispatchAllAppend(xs: seq<Obj>, ys: seq<Obj>)
    ensures DispatchAll(xs + ys) == DispatchAll(xs) + DispatchAll(ys)
    decreases |xs|
  {
    if xs == [] {
      assert xs + ys == ys;
    } else {
      assert (xs + ys)[0] == xs[0];
      assert (xs + ys)[1..] == xs[1..] + ys;
      DispatchAllAppend(xs[1..], ys);
    }
  }

  /** Carrying out one more action appends exactly that action's effects. */
  lemma DispatchAllStep(xs: seq<Obj>, i: nat)
    requires i < |xs|
    ensures DispatchAll(xs[..i + 1]) == DispatchAll(xs[..i]) + ActionEffects(xs[i])
  {
    assert xs[..i + 1] == xs[..i] + [xs[i]];
    DispatchAllAppend(xs[..i], [xs[i]]);
    assert DispatchAll([xs[i]]) == ActionEffects(xs[i]) + DispatchAll([]);
  }

  /**
   * The loop body as the script runs it. `terminated` tells the caller to leave
   * the loop (the `break` after "Goodbye.").
   */
  method RunCycle(wake: int, healthy: bool, heard: Option<string>, resolve: string -> Decision)
    returns (effects: seq<Effect>, terminated: bool)
    ensures effects == PlanCycle(wake, healthy, heard, resolve)
    ensures terminated <==> EndsProcess(wake, healthy, heard)
  {
    effects, terminated := [], false;
    if wake < 0 {
      return;
    }
    if !healthy {
      effects := [Speak(UNREACHABLE)];
      return;
    }
    effects := [Pause, Listen];
    if heard.Some? && heard.value in STOP_PHRASES {
      effects := effects + [Speak(GOODBYE), Terminate];
      terminated := true;
      return;
    }
    if heard.Some? && heard.value != "" {
      effects := effects + [Think];
      var decision := resolve(heard.value);
      var actions: seq<Obj> := [];
      match decision {
        case Some(Object(o)) => actions := [o];
        case Some(Array(xs)) => actions := xs;
        case None =>
      }
      if actions != [] {
        var acted := CarryOut(actions);
        effects := effects + acted;
      }
    }
  }

  /** The `for action in decision` loop: each action's effects, in list order. */
  method CarryOut(actions: seq<Obj>) returns (effects: seq<Effect>)
    ensures effects == DispatchAll(actions)
  {
    effects := [];
    for i := 0 to |actions|
      invariant effects == DispatchAll(actions[..i])
    {
      var action := actions[i];
      var actionType := Get(action, "action");
      if actionType == Some("call_service") {
        var svc := Get(action, "service");
        var extra: map<string, string> := map[];
        if "source" in action {
          extra := extra["source" := action["source"]];
        }
        effects := effects + [Speak("Executing " + Display(svc) + ".")];
        effects := effects + [Post(Get(action, "domain"), svc, Get(action, "entity_id"), extra)];
        effects := effects + [Pause];
      } else if actionType == Some("chat") {
        effects := effects + [Speak(Display(Get(action, "response")))];
      }
      DispatchAllStep(actions, i);
    }
    assert actions[..|actions|] == actions;
  }

  // ---- What one wake cycle does ----

  /** Carrying out actions never listens, consults the resolver or terminates. */
  lemma {:induction false} DispatchOnlyActs(xs: seq<Obj>)
    ensures Listen !in DispatchAll(xs)
    ensures Think !in DispatchAll(xs)
    ensures Terminate !in DispatchAll(xs)
    decreases |xs|
  {
    if xs != [] {
      DispatchOnlyActs(xs[1..]);
    }
  }

  /** A failed health check after the wake word: the apology is the only effect. */
  lemma UnreachableOnlyApology(wake: int, heard: Option<string>, resolve: string -> Decision)
    requires wake >= 0
    ensures PlanCycle(wake, false, heard, resolve) == [Speak(UNREACHABLE)]
  {
  }

  /** The loop listens exactly when the wake word was detected and the hub answered. */
  lemma ListensIff(wake: int, healthy: bool, heard: Option<string>, resolve: string -> Decision)
    ensures Listen in PlanCycle(wake, healthy, heard, resolve) <==> wake >= 0 && healthy
  {
  }

  /**
   * The resolver is consulted exactly when, after a wake and a healthy hub,
   * something non-empty that is not a stop phrase was heard.
   */
  lemma ThinksIff(wake: int, healthy: bool, heard: Option<string>, resolve: string -> Decision)
    ensures Think in PlanCycle(wake, healthy, heard, resolve) <==>
              wake >= 0 && healthy && !IsStopPhrase(heard) && HeardCommand(heard)
  {
  }

  /**
   * The cycle terminates exactly on a stop phrase, and then it ends with
   * "Goodbye." followed by Terminate.
   */
  lemma TerminatesIff(wake: int, healthy: bool, heard: Option<string>, resolve: string -> Decision)
    ensures Terminate in PlanCycle(wake, healthy, heard, resolve) <==> EndsProcess(wake, healthy, heard)
    ensures EndsProcess(wake, healthy, heard) ==>
              PlanCycle(wake, healthy, heard, resolve) == [Pause, Listen, Speak(GOODBYE), Terminate]
  {
    if wake >= 0 && healthy && !IsStopPhrase(heard) && HeardCommand(heard) {
      var acts := DispatchAll(Normalize(resolve(heard.value)));
      DispatchOnlyActs(Normalize(resolve(heard.value)));
      assert Terminate !in [Pause, Listen, Think] + acts;
    }
  }

  /** On a stop phrase the outcome does not depend on the resolver. */
  lemma StopIgnoresResolver(wake: int, healthy: bool, heard: Option<string>,
                            resolve: string -> Decision, other: string -> Decision)
    requires IsStopPhrase(heard)
    ensures PlanCycle(wake, healthy, heard, resolve) == PlanCycle(wake, healthy, heard, other)
  {
  }

  /** Nothing heard (or only the empty string): the cycle stops after listening. */
  lemma SilenceDoesNothing(wake: int, heard: Option<string>, resolve: string -> Decision)
    requires wake >= 0 && !HeardCommand(heard)
    ensures PlanCycle(wake, true, heard, resolve) == [Pause, Listen]
  {
  }

  /** No decision, or an empty list: the resolver is consulted and nothing is spoken or posted. */
  lemma NoDecisionNoAction(wake: int, command: string, resolve: string -> Decision)
    requires wake >= 0 && command != "" && command !in STOP_PHRASES
    requires resolve(command) == None || resolve(command) == Some(Array([]))
    ensures PlanCycle(wake, true, Some(command), resolve) == [Pause, Listen, Think]
  {
  }

  /** A single object is carried out exactly as the one-element list holding it. */
  lemma SingleObjectAsList(wake: int, healthy: bool, command: string, o: Obj,
                           one: string -> Decision, list: string -> Decision)
    requires one(command) == Some(Object(o)) && list(command) == Some(Array([o]))
    ensures PlanCycle(wake, healthy, Some(command), one) == PlanCycle(wake, healthy, Some(command), list)
  {
  }

  // ---- What the actions do, in order ----

  /** The service-call effects among `effects`, in order. */
  function Posts(effects: seq<Effect>): (posts: seq<Effect>)
    decreases |effects|
  {
    if effects == [] then []
    else (if effects[0].Post? then [effects[0]] else []) + Posts(effects[1..])
  }

  lemma {:induction false} PostsAppend(a: seq<Effect>, b: seq<Effect>)
    ensures Posts(a + b) == Posts(a) + Posts(b)
    decreases |a|
  {
    if a == [] {
      assert a + b == b;
    } else {
      assert (a + b)[0] == a[0];
      assert (a + b)[1..] == a[1..] + b;
      PostsAppend(a[1..], b);
    }
  }

  lemma PostsOfAction(a: Obj)
    ensures Posts(ActionEffects(a)) == if IsServiceCall(a) then [PostOf(a)] else []
  {
    var e := ActionEffects(a);
    if IsServiceCall(a) {
      assert e[1..] == [PostOf(a), Pause];
      assert e[1..][1..] == [Pause];
      assert [Pause][1..] == [];
      assert Posts([Pause]) == [];
      assert Posts([PostOf(a), Pause]) == [PostOf(a)];
    } else if IsChat(a) {
      assert e[1..] == [];
    }
  }

  /** The service calls the actions ask for, in list order. */
  function RequestedPosts(actions: seq<Obj>): (posts: seq<Effect>)
    decreases |actions|
  {
    if actions == [] then []
    else (if IsServiceCall(actions[0]) then [PostOf(actions[0])] else []) + RequestedPosts(actions[1..])
  }

  /**
   * Every `call_service` action is posted, once, in list order, whatever earlier
   * posts returned; chat replies and unknown actions post nothing.
   */
  lemma {:induction false} PostsInActionOrder(actions: seq<Obj>)
    ensures Posts(DispatchAll(actions)) == RequestedPosts(actions)
    decreases |actions|
  {
    if actions != [] {
      var a := actions[0];
      PostsAppend(ActionEffects(a), DispatchAll(actions[1..]));
      PostsInActionOrder(actions[1..]);
      PostsOfAction(a);
    }
  }

  /** Every posted call carries at most the `source` key as extra data. */
  lemma {:induction false} PostsCarryOnlySource(actions: seq<Obj>)
    ensures forall e :: e in DispatchAll(actions) && e.Post? ==> e.extra.Keys <= {"source"}
    decreases |actions|
  {
    if actions != [] {
      PostsCarryOnlySource(actions[1..]);
    }
  }

  /** Recognised actions. */
  function KnownActions(actions: seq<Obj>): (known: seq<Obj>)
    decreases |actions|
  {
    if actions == [] then []
    else (if IsServiceCall(actions[0]) || IsChat(actions[0]) then [actions[0]] else []) + KnownActions(actions[1..])
  }

  /** Unknown action types are skipped: dropping them changes nothing. */
  lemma {:induction false} UnknownActionsSkipped(actions: seq<Obj>)
    ensures DispatchAll(actions) == DispatchAll(KnownActions(actions))
    decreases |actions|
  {
    if actions != [] {
      var a := actions[0];
      UnknownActionsSkipped(actions[1..]);
      var head := if IsServiceCall(a) || IsChat(a) then [a] else [];
      DispatchAllAppend(head, KnownActions(actions[1..]));
      if head != [] {
        assert DispatchAll(head) == ActionEffects(a) + DispatchAll([]);
      }
    }
  }

  /** The request a posted call sends. */
  function PostRequest(config: Config, e: Effect): (request: Request)
    requires e.Post?
  {
    Request(ServiceUrl(config.haUrl, e.domain, e.service), Headers(config.token), ServiceBody(e.entity, Some(e.extra)))
  }

  /**
   * The body of a service call: `entity_id` and, exactly when the action has a
   * `source` field, that field verbatim; nothing else of the action is sent.
   */
  lemma ServiceCallBody(config: Config, a: Obj)
    requires IsServiceCall(a)
    ensures PostRequest(config, PostOf(a)).body ==
              if "source" in a then map["entity_id" := ToJson(Get(a, "entity_id")), "source" := JStr(a["source"])]
              else map["entity_id" := ToJson(Get(a, "entity_id"))]
  {
    if "source" !in a {
      BodyWithoutExtra(Get(a, "entity_id"), Some(map[]));
    } else {
      var b := PostRequest(config, PostOf(a)).body;
      assert b.Keys == {"entity_id", "source"};
    }
  }

  /** A command resolved to one service call: consult, announce, post, pause. */
  lemma OneServiceCallCycle(wake: int, command: string, a: Obj, resolve: string -> Decision)
    requires wake >= 0 && command != "" && command !in STOP_PHRASES
    requires resolve(command) == Some(Array([a])) && IsServiceCall(a)
    ensures PlanCycle(wake, true, Some(command), resolve) ==
              [Pause, Listen, Think, Speak("Executing " + Display(Get(a, "service")) + "."), PostOf(a), Pause]
  {
    assert DispatchAll([a]) == ActionEffects(a) + DispatchAll([]);
  }

  /** The decision for "turn off the kitchen light": one switch call. */
  const KITCHEN_LIGHT_OFF: Obj :=
    map["action" := "call_service", "domain" := "switch", "service" := "turn_off", "entity_id" := "switch.kitchen_light"]

  /** "turn off the kitchen light": announce, post to switch/turn_off with only the entity, pause. */
  lemma KitchenLightScenario(config: Config, resolve: string -> Decision)
    requires resolve("turn off the kitchen light") == Some(Array([KITCHEN_LIGHT_OFF]))
    ensures var effects := PlanCycle(0, true, Some("turn off the kitchen light"), resolve);
            && effects == [Pause, Listen, Think, Speak("Executing turn_off."),
                           Post(Some("switch"), Some("turn_off"), Some("switch.kitchen_light"), map[]), Pause]
            && PostRequest(config, effects[4]) ==
                 Request(config.haUrl + "/api/services/switch/turn_off", Headers(config.token),
                         map["entity_id" := JStr("switch.kitchen_light")])
  {
    var a := KITCHEN_LIGHT_OFF;
    assert IsServiceCall(a);
    assert "turn off the kitchen light" !in STOP_PHRASES;
    OneServiceCallCycle(0, "turn off the kitchen light", a, resolve);
    KitchenLightRequest(config);
  }

  lemma KitchenLightRequest(config: Config)
    ensures "Executing " + Display(Get(KITCHEN_LIGHT_OFF, "service")) + "." == "Executing turn_off."
    ensures PostOf(KITCHEN_LIGHT_OFF) == Post(Some("switch"), Some("turn_off"), Some("switch.kitchen_light"), map[])
    ensures PostRequest(config, PostOf(KITCHEN_LIGHT_OFF)) ==
              Request(config.haUrl + "/api/services/switch/turn_off", Headers(config.token),
                      map["entity_id" := JStr("switch.kitchen_light")])
  {
    var a := KITCHEN_LIGHT_OFF;
    assert Get(a, "service") == Some("turn_off") && Get(a, "domain") == Some("switch");
    assert Get(a, "entity_id") == Some("switch.kitchen_light") && "source" !in a;
    assert "Executing " + Display(Some("turn_off")) + "." == "Executing turn_off.";
    var tail := "/api/services/" + "switch" + "/" + "turn_off";
    assert tail == "/api/services/switch/turn_off";
    assert config.haUrl + "/api/services/" + "switch" + "/" + "turn_off" == config.haUrl + tail;
    BodyWithoutExtra(Some("switch.kitchen_light"), Some(map[]));
  }

  /** The decision for "open youtube" on the TV `tv`: a select_source call naming the app. */
  function OpenYouTube(tv: string): (action: Obj) {
    map["action" := "call_service", "domain" := "media_player", "service" := "select_source",
        "entity_id" := tv, "source" := "YouTube"]
  }

  /** "open youtube": the posted body is the TV entity and the source "YouTube". */
  lemma OpenYouTubeScenario(config: Config, tv: string, resolve: string -> Decision)
    requires resolve("open youtube") == Some(Array([OpenYouTube(tv)]))
    ensures var effects := PlanCycle(0, true, Some("open youtube"), resolve);
            && |effects| == 6
            && effects[4] == PostOf(OpenYouTube(tv))
            && PostRequest(config, effects[4]).url == config.haUrl + "/api/services/media_player/select_source"
            && PostRequest(config, effects[4]).body == map["entity_id" := JStr(tv), "source" := JStr("YouTube")]
  {
    var a := OpenYouTube(tv);
    assert IsServiceCall(a);
    assert "open youtube" !in STOP_PHRASES;
    OneServiceCallCycle(0, "open youtube", a, resolve);
    OpenYouTubeRequest(config, tv);
  }

  lemma OpenYouTubeRequest(config: Config, tv: string)
    ensures PostRequest(config, PostOf(OpenYouTube(tv))).url == config.haUrl + "/api/services/media_player/select_source"
    ensures PostRequest(config, PostOf(OpenYouTube(tv))).body == map["entity_id" := JStr(tv), "source" := JStr("YouTube")]
  {
    var a := OpenYouTube(tv);
    assert Get(a, "service") == Some("select_source") && Get(a, "domain") == Some("media_player");
    var tail := "/api/services/" + "media_player" + "/" + "select_source";
    assert tail == "/api/services/media_player/select_source";
    assert config.haUrl + "/api/services/" + "media_player" + "/" + "select_source" == config.haUrl + tail;
    assert Get(a, "entity_id") == Some(tv) && a["source"] == "YouTube";
    ServiceCallBody(config, a);
  }

  // ---- The loop over frames ----

  /** What the loop sees for one audio frame. */
  datatype Frame = Frame(wake: int, healthy: bool, heard: Option<string>, resolve: string -> Decision)

  /** The effects of the loop over `frames`, which ends after the first stop phrase. */
  function PlanSession(frames: seq<Frame>): (effects: seq<Effect>)
    decreases |frames|
  {
    if frames == [] then []
    else
      var f := frames[0];
      var effects := PlanCycle(f.wake, f.healthy, f.heard, f.resolve);
      if EndsProcess(f.wake, f.healthy, f.heard) then effects else effects + PlanSession(frames[1..])
  }

  /** If the loop terminates, it does so once, as its very last effect. */
  lemma {:induction false} TerminateIsLast(frames: seq<Frame>)
    ensures var effects := PlanSession(frames);
            Terminate in effects ==> effects[|effects| - 1] == Terminate && Terminate !in effects[..|effects| - 1]
    decreases |frames|
  {
    if frames != [] {
      var f := frames[0];
      var cycle := PlanCycle(f.wake, f.healthy, f.heard, f.resolve);
      TerminatesIff(f.wake, f.healthy, f.heard, f.resolve);
      if EndsProcess(f.wake, f.healthy, f.heard) {
        assert cycle[..3] == [Pause, Listen, Speak(GOODBYE)];
      } else {
        TerminateIsLast(frames[1..]);
        var rest := PlanSession(frames[1..]);
        assert PlanSession(frames) == cycle + rest;
        if Terminate in cycle + rest {
          assert Terminate in rest;
          assert (cycle + rest)[..|cycle + rest| - 1] == cycle + rest[..|rest| - 1];
        }
      }
    }
  }

  /** The run from frame `i` on is frame `i`'s cycle, then the rest unless it ended the process. */
  lemma PlanSessionStep(frames: seq<Frame>, i: nat)
    requires i < |frames|
    ensures var f := frames[i];
            PlanSession(frames[i..]) ==
              PlanCycle(f.wake, f.healthy, f.heard, f.resolve) +
              (if EndsProcess(f.wake, f.healthy, f.heard) then [] else PlanSession(frames[i + 1..]))
  {
    assert frames[i..][0] == frames[i] && frames[i..][1..] == frames[i + 1..];
    var f := frames[i];
    if EndsProcess(f.wake, f.healthy, f.heard) {
      var c := PlanCycle(f.wake, f.healthy, f.heard, f.resolve);
      assert c + [] == c;
    }
  }

  /** The `while True` loop over the frames, left by `break` on a stop phrase. */
  method RunLoop(frames: seq<Frame>) returns (effects: seq<Effect>)
    ensures effects == PlanSession(frames)
  {
    effects := [];
    var i := 0;
    while i < |frames|
      invariant 0 <= i <= |frames|
      invariant PlanSession(frames) == effects + PlanSession(frames[i..])
    {
      var f := frames[i];
      var cycle, terminated := RunCycle(f.wake, f.healthy, f.heard, f.resolve);
      PlanSessionStep(frames, i);
      effects := effects + cycle;
      if terminated {
        return;
      }
      i := i + 1;
    }
  }
}
