/** Turning a model's reply into a decision (app/agent/llm.py, app/agent/guardrails.py):
    gaps filled from the task, values coerced, invented identifiers taken out. */
module Decide {
  import opened Values
  import opened Schema
  import opened Identifiers
  import E = Enforcement
  import G = Graph

  /** The text conversions of the agent: those of values, the first free-standing amount in
      a task, and the JSON text of arguments and results as the model is shown them. */
  datatype Conv = Conv(
    rules: TextRules,
    amountIn: string -> Option<real>,
    argsText: Args -> string,
    resultText: Val -> string)

  // ---- What the task and the run have shown --------------------------------------

  function FieldFor(token: string): string
    requires token != ""
  {
    if token[0] == 'o' then "order_id" else if token[0] == 'c' then "customer_id" else "ticket_id"
  }

  /** `_extract_args`. */
  function Extracted(conv: Conv, task: string): Args {
    (match FirstToken(task, 0)
     case Some(token) => if token == "" then map[] else map[FieldFor(token) := Str(token)]
     case None => map[])
    + (match conv.amountIn(task)
       case Some(r) => map["amount" := Num(r)]
       case None => map[])
  }

  /** The identifiers in one observation: in its arguments, its result and its tool name. */
  function Shown(conv: Conv, o: G.Observation): set<string> {
    Tokens(conv.argsText(o.args)) + Tokens(conv.resultText(o.result)) + Tokens(o.tool)
  }

  function Seen(conv: Conv, task: string, observations: seq<G.Observation>): set<string> {
    if observations == [] then Tokens(task)
    else Seen(conv, task, observations[..|observations| - 1]) + Shown(conv, observations[|observations| - 1])
  }

  /** The loop of `_seen_identifiers`. */
  method SeenIdentifiers(conv: Conv, task: string, observations: seq<G.Observation>) returns (seen: set<string>)
    ensures seen == Seen(conv, task, observations)
  {
    seen := FindAll(task);
    for i := 0 to |observations|
      invariant seen == Seen(conv, task, observations[..i])
    {
      assert observations[..i + 1][..i] == observations[..i];
      var inArgs := FindAll(conv.argsText(observations[i].args));
      var inResult := FindAll(conv.resultText(observations[i].result));
      var inTool := FindAll(observations[i].tool);
      seen := seen + (inArgs + inResult + inTool);
    }
    assert observations[..|observations|] == observations;
  }

  /** What the run has been shown: exactly the identifiers of the task, and of what was asked
      of every observed tool, what it returned, and what it is called. */
  lemma {:induction false} SeenIff(conv: Conv, task: string, observations: seq<G.Observation>, token: string)
    ensures token in Seen(conv, task, observations) <==>
      || token in Tokens(task)
      || exists i :: 0 <= i < |observations| && NamedIn(conv, observations[i], token)
    decreases |observations|
  {
    if observations != [] {
      var front := observations[..|observations| - 1];
      SeenIff(conv, task, front, token);
      assert forall i | 0 <= i < |front| :: front[i] == observations[i];
    }
  }

  predicate NamedIn(conv: Conv, o: G.Observation, token: string) {
    token in Tokens(conv.argsText(o.args)) || token in Tokens(conv.resultText(o.result)) || token in Tokens(o.tool)
  }

  // ---- Filling gaps -----------------------------------------------------------------

  /** `value in (None, "", 0)`. */
  predicate Gap(v: Val) {
    Blank(v) || PyEq(v, Int(0))
  }

  /** The gaps among `keys`, filled. */
  function GapsFilled(properties: Properties, args: Args, extracted: Args, keys: set<string>): Args {
    args + map k | k in keys && k in extracted && k in properties && Gap(Get(args, k)) :: extracted[k]
  }

  function WithGapsFilled(properties: Properties, args: Args, extracted: Args): Args {
    GapsFilled(properties, args, extracted, extracted.Keys)
  }

  lemma FillStep(properties: Properties, args: Args, extracted: Args, done: set<string>, key: string)
    requires key in extracted && key !in done
    ensures var filled := GapsFilled(properties, args, extracted, done);
            && Get(filled, key) == Get(args, key)
            && GapsFilled(properties, args, extracted, done + {key})
               == if key in properties && Gap(Get(filled, key)) then filled[key := extracted[key]] else filled
  {
  }

  /** The loop of `_fill_gaps`, and the coercion at its end. */
  method FillGaps(conv: Conv, tool: E.Tool, args: Args, task: string) returns (out: Args)
    ensures out == Coerced(conv.rules, tool.properties,
                           WithGapsFilled(tool.properties, args, Extracted(conv, task)))
  {
    var extracted := Extracted(conv, task);
    var filled, todo := args, extracted.Keys;
    ghost var done := {};
    while todo != {}
      invariant done !! todo && done + todo == extracted.Keys
      invariant filled == GapsFilled(tool.properties, args, extracted, done)
      decreases todo
    {
      var key :| key in todo;
      FillStep(tool.properties, args, extracted, done, key);
      todo, done := todo - {key}, done + {key};
      if key in tool.properties && Gap(Get(filled, key)) {
        filled := filled[key := extracted[key]];
      }
    }
    assert done == extracted.Keys;
    out := CoerceArgs(conv.rules, tool.properties, filled);
  }

  // ---- Guardrails ---------------------------------------------------------------------

  predicate NamesAnIdentifier(name: string) {
    |name| >= 3 && name[|name| - 3..] == "_id"
  }

  /** Exactly the names that end in `_id`. */
  lemma NamesAnIdentifierIff(name: string)
    ensures NamesAnIdentifier(name) <==> exists stem: string :: name == stem + "_id"
  {
    if NamesAnIdentifier(name) {
      assert name == name[..|name| - 3] + "_id";
    }
    if stem: string :| name == stem + "_id" {
      assert name[|stem|..] == "_id";
    }
  }

  /** `identifier_args`: the required arguments that name something in the world. */
  function IdentifierArgs(tool: E.Tool): set<string> {
    set name | name in tool.required && NamesAnIdentifier(name)
  }

  /** A value given for an identifier that the run has not been shown. */
  predicate Invented(rules: TextRules, args: Args, seen: set<string>, name: string) {
    !Blank(Get(args, name)) && Show(rules, args[name]) !in seen
  }

  /** The corrected arguments: an invented identifier gives way to the task's, or goes. */
  function Resolved(rules: TextRules, ids: set<string>, args: Args, seen: set<string>, fromTask: Args): Args {
    map k | k in args && (k in ids && Invented(rules, args, seen, k) ==> !Blank(Get(fromTask, k))) ::
      if k in ids && Invented(rules, args, seen, k) then fromTask[k] else args[k]
  }

  lemma ResolveStep(rules: TextRules, done: set<string>, args: Args, seen: set<string>, fromTask: Args, name: string)
    requires name !in done
    ensures var kept := Resolved(rules, done, args, seen, fromTask);
            && Get(kept, name) == Get(args, name)
            && Resolved(rules, done + {name}, args, seen, fromTask)
               == if !Invented(rules, kept, seen, name) then kept
                  else if !Blank(Get(fromTask, name)) then kept[name := fromTask[name]]
                  else kept - {name}
  {
    var kept := Resolved(rules, done, args, seen, fromTask);
    var more := Resolved(rules, done + {name}, args, seen, fromTask);
    assert name in kept <==> name in args;
    if !Invented(rules, kept, seen, name) {
      assert more == kept;
    } else if !Blank(Get(fromTask, name)) {
      assert more == kept[name := fromTask[name]];
    } else {
      assert more == kept - {name};
    }
  }

  /** The loop of `resolve_identifiers`. */
  method ResolveIdentifiers(rules: TextRules, tool: E.Tool, args: Args, seen: set<string>, fromTask: Args)
    returns (kept: Args, invented: set<string>)
    ensures kept == Resolved(rules, IdentifierArgs(tool), args, seen, fromTask)
    ensures invented == set name | name in IdentifierArgs(tool) && Invented(rules, args, seen, name)
  {
    kept, invented := args, {};
    var todo := IdentifierArgs(tool);
    ghost var done := {};
    while todo != {}
      invariant done !! todo && done + todo == IdentifierArgs(tool)
      invariant kept == Resolved(rules, done, args, seen, fromTask)
      invariant invented == set name | name in done && Invented(rules, args, seen, name)
      decreases todo
    {
      var name :| name in todo;
      ResolveStep(rules, done, args, seen, fromTask, name);
      todo, done := todo - {name}, done + {name};
      var value := Get(kept, name);
      if !Blank(value) && Show(rules, value) !in seen {
        invented := invented + {name};
        if !Blank(Get(fromTask, name)) {
          kept := kept[name := fromTask[name]];
        } else {
          kept := kept - {name};
        }
      }
    }
    assert done == IdentifierArgs(tool);
  }

  /** `check_decision`: the required arguments still to be supplied. */
  function Missing(tool: E.Tool, args: Args): seq<string> {
    G.Remaining(args, tool.required)
  }

  // ---- The decision -------------------------------------------------------------------

  /** What comes back from the model. An empty tool name is the model declining. */
  datatype Reply = NotReached | Unusable | Proposes(tool: string, args: Args, more: bool)

  /** The arguments of a proposed call, after gaps, coercion and guardrails. */
  function Proposed(conv: Conv, tool: E.Tool, args: Args, task: string, seen: set<string>): Args {
    var extracted := Extracted(conv, task);
    var filled := Coerced(conv.rules, tool.properties, WithGapsFilled(tool.properties, args, extracted));
    Resolved(conv.rules, IdentifierArgs(tool), filled, seen, extracted)
  }

  function Decision(conv: Conv, tools: E.Catalogue, unavailable: set<string>, task: string,
                    seen: set<string>, reply: Reply): G.Decision
  {
    match reply
    case NotReached => G.NoTool(false)
    case Unusable => G.NoTool(false)
    case Proposes(name, args, more) =>
      if name != "" && name in unavailable then G.NoTool(true)
      else if name == "" then G.NoTool(true)
      else if name !in tools then G.NoTool(false)
      else
        var tool := tools[name];
        var final := Proposed(conv, tool, args, task, seen);
        if Missing(tool, final) != [] then G.Clarify(tool.name, final, Missing(tool, final))
        else G.UseTool(tool.name, final, more)
  }

  method DecideTool(conv: Conv, tools: E.Catalogue, unavailable: set<string>, task: string,
                    observations: seq<G.Observation>, reply: Reply) returns (d: G.Decision)
    ensures d == Decision(conv, tools, unavailable, task, Seen(conv, task, observations), reply)
  {
    if !reply.Proposes? {
      return G.NoTool(false);
    }
    var name := reply.tool;
    if name != "" && name in unavailable {
      return G.NoTool(true);
    }
    if name == "" {
      return G.NoTool(true);
    }
    if name !in tools {
      return G.NoTool(false);
    }
    var tool := tools[name];
    var args := FillGaps(conv, tool, reply.args, task);
    var seen := SeenIdentifiers(conv, task, observations);
    var invented: set<string>;
    args, invented := ResolveIdentifiers(conv.rules, tool, args, seen, Extracted(conv, task));
    var missing := Missing(tool, args);
    if missing != [] {
      return G.Clarify(tool.name, args, missing);
    }
    return G.UseTool(tool.name, args, reply.more);
  }

  // ---- What every decision satisfies ---------------------------------------------------

  lemma TaskIsSeen(conv: Conv, task: string, observations: seq<G.Observation>)
    ensures Tokens(task) <= Seen(conv, task, observations)
    decreases |observations|
  {
    if observations != [] {
      TaskIsSeen(conv, task, observations[..|observations| - 1]);
    }
  }

  lemma ExtractedIdsAreTokens(conv: Conv, task: string, name: string)
    requires NamesAnIdentifier(name)
    ensures Blank(Get(Extracted(conv, task), name))
         || (Get(Extracted(conv, task), name).Str? && Get(Extracted(conv, task), name).s in Tokens(task))
  {
    assert name != "amount" by {
      assert "amount"[3..] == "unt";
    }
  }

  /** Whatever the model proposes, each identifier it keeps was shown to it. */
  lemma IdentifiersWereSeen(conv: Conv, tool: E.Tool, args: Args, task: string, seen: set<string>, name: string)
    requires Tokens(task) <= seen && name in IdentifierArgs(tool)
    ensures var final := Proposed(conv, tool, args, task, seen);
            Blank(Get(final, name)) || Show(conv.rules, final[name]) in seen
  {
    ExtractedIdsAreTokens(conv, task, name);
  }

  // ---- What the task says comes first ----------------------------------------------------

  /** The argument that an identifier of each kind is for. */
  predicate Names(name: string, token: string) {
    token != "" && ((name == "order_id" && token[0] == 'o') || (name == "customer_id" && token[0] == 'c')
                    || (name == "ticket_id" && token[0] == 't'))
  }

  /** What the model left out: nothing, an empty text, or zero of any kind. */
  predicate LeftOut(v: Val) {
    v == Null || v == Str("") || v == Int(0) || v == Num(0.0) || v == Bool(false)
  }

  lemma GapIff(v: Val)
    ensures Gap(v) <==> LeftOut(v)
  {
  }

  lemma OnlyIts(conv: Conv, task: string, token: string, name: string)
    requires Leftmost(task, token) && name != "amount"
    ensures Get(Extracted(conv, task), name) == if Names(name, token) then Str(token) else Null
  {
    FirstTokenIff(task, token);
    LeftmostIsUnique(task, token, token);
  }

  /** The task's first identifier fills the gap that its kind is for: the decision has it, and
      does not ask for it. */
  lemma TaskFillsItsGap(conv: Conv, tool: E.Tool, args: Args, task: string, seen: set<string>, token: string, name: string)
    requires Leftmost(task, token) && Names(name, token) && Tokens(task) <= seen
    requires name in tool.properties && tool.properties[name] == Text && LeftOut(Get(args, name))
    ensures var final := Proposed(conv, tool, args, task, seen);
            Get(final, name) == Str(token) && name !in Missing(tool, final)
  {
    GapIff(Get(args, name));
    OnlyIts(conv, task, token, name);
    FirstTokenIff(task, token);
    LeftmostIsUnique(task, token, token);
    var filled := WithGapsFilled(tool.properties, args, Extracted(conv, task));
    assert filled[name] == Str(token);
    G.RemainingAre(Proposed(conv, tool, args, task, seen), tool.required, name);
  }

  /** It fills no other: an identifier of another kind that the model left out stays out. */
  lemma TaskFillsNoOther(conv: Conv, tool: E.Tool, args: Args, task: string, seen: set<string>, token: string, name: string)
    requires Leftmost(task, token) && NamesAnIdentifier(name) && !Names(name, token) && Blank(Get(args, name))
    requires name in tool.properties ==> tool.properties[name] == Text
    ensures Blank(Get(Proposed(conv, tool, args, task, seen), name))
  {
    assert name != "amount" by {
      assert "amount"[3..] == "unt";
    }
    OnlyIts(conv, task, token, name);
  }

  /** A required identifier that the run has not been shown gives way to the task's, if the
      task's first identifier is of its kind, and is taken out otherwise. */
  lemma UnseenGivesWay(conv: Conv, tool: E.Tool, args: Args, task: string, seen: set<string>, token: string, name: string)
    requires Leftmost(task, token) && name in IdentifierArgs(tool)
    requires name in tool.properties && tool.properties[name] == Text
    requires name in args && !LeftOut(args[name]) && Show(conv.rules, args[name]) !in seen
    requires Show(conv.rules, args[name]) != ""
    ensures Get(Proposed(conv, tool, args, task, seen), name) == if Names(name, token) then Str(token) else Null
  {
    assert name != "amount" by {
      assert "amount"[3..] == "unt";
    }
    OnlyIts(conv, task, token, name);
    GivenIsNotFilled(conv, tool, args, Extracted(conv, task), name);
    var extracted := Extracted(conv, task);
    var filled := Coerced(conv.rules, tool.properties, WithGapsFilled(tool.properties, args, extracted));
    ResolvedAt(conv.rules, IdentifierArgs(tool), filled, seen, extracted, name);
  }

  lemma GivenIsNotFilled(conv: Conv, tool: E.Tool, args: Args, extracted: Args, name: string)
    requires name in args && !LeftOut(args[name]) && name in tool.properties
    ensures var filled := Coerced(conv.rules, tool.properties, WithGapsFilled(tool.properties, args, extracted));
            name in filled && filled[name] == Coerce(conv.rules, args[name], tool.properties[name])
  {
    GapIff(args[name]);
    assert WithGapsFilled(tool.properties, args, extracted)[name] == args[name];
  }

  lemma ResolvedAt(rules: TextRules, ids: set<string>, args: Args, seen: set<string>, fromTask: Args, name: string)
    requires name in ids && Invented(rules, args, seen, name)
    ensures Get(Resolved(rules, ids, args, seen, fromTask), name)
         == if Blank(Get(fromTask, name)) then Null else Get(fromTask, name)
  {
  }

  /** With no identifier in the task at all, none is filled in. */
  lemma NothingToFill(conv: Conv, task: string, name: string)
    requires Tokens(task) == {} && name != "amount"
    ensures Get(Extracted(conv, task), name) == Null
  {
    FirstTokenIff(task, "");
  }

  /** An identifier that the run has been shown, and every other argument that the model gave,
      is kept as it is, coerced. */
  lemma GivenIsKept(conv: Conv, tool: E.Tool, args: Args, task: string, seen: set<string>, name: string)
    requires name in args && name in tool.properties && !LeftOut(args[name])
    requires name in IdentifierArgs(tool) ==> Show(conv.rules, Coerce(conv.rules, args[name], tool.properties[name])) in seen
    ensures Get(Proposed(conv, tool, args, task, seen), name) == Coerce(conv.rules, args[name], tool.properties[name])
  {
    GivenIsNotFilled(conv, tool, args, Extracted(conv, task), name);
  }

  /** An amount that the model left out, or gave as zero, is the task's first free-standing
      number, if there is one. */
  lemma TaskFillsTheAmount(conv: Conv, tool: E.Tool, args: Args, task: string, seen: set<string>)
    requires "amount" in tool.properties && tool.properties["amount"] == Number && LeftOut(Get(args, "amount"))
    requires conv.amountIn(task).Some?
    ensures Get(Proposed(conv, tool, args, task, seen), "amount") == Num(conv.amountIn(task).value)
  {
    GapIff(Get(args, "amount"));
    assert !NamesAnIdentifier("amount") by {
      assert "amount"[3..] == "unt";
    }
    var filled := WithGapsFilled(tool.properties, args, Extracted(conv, task));
    assert filled["amount"] == Num(conv.amountIn(task).value);
  }

  /** Every decision, from the reply: refused when the model declined or named a tool that the
      role may not call; an error when the model was not reached, or its reply names no tool
      that is offered; a question when a required argument is blank, about exactly those; and
      otherwise the call the model named, with its own wish for another step. */
  lemma DecisionIff(conv: Conv, tools: E.Catalogue, unavailable: set<string>, task: string, seen: set<string>, reply: Reply)
    requires E.WellFormed(tools)
    ensures var d := Decision(conv, tools, unavailable, task, seen, reply);
            var declined := reply.Proposes? && (reply.tool == "" || reply.tool in unavailable);
            var unknown := !reply.Proposes? || (!declined && reply.tool !in tools);
            && (d.NoTool? && d.refused <==> declined)
            && (d.NoTool? && !d.refused <==> unknown)
            && (!declined && !unknown ==>
                  && !d.NoTool? && d.tool == reply.tool
                  && d.args == Proposed(conv, tools[reply.tool], reply.args, task, seen)
                  && (d.UseTool? <==> forall name | name in tools[reply.tool].required :: Get(d.args, name) !in {Null, Str("")})
                  && (d.UseTool? ==> d.more == reply.more)
                  && (d.Clarify? ==> forall name :: name in d.missing <==>
                        name in tools[reply.tool].required && Get(d.args, name) in {Null, Str("")}))
  {
    if reply.Proposes? && reply.tool !in unavailable && reply.tool != "" && reply.tool in tools {
      var tool := tools[reply.tool];
      var final := Proposed(conv, tool, reply.args, task, seen);
      forall name
        ensures name in Missing(tool, final) <==> name in tool.required && Blank(Get(final, name))
      {
        G.RemainingAre(final, tool.required, name);
      }
      if Missing(tool, final) != [] {
        assert Missing(tool, final)[0] in tool.required;
      }
    }
  }

  /** A decision's arguments are a fixpoint of the coercion the enforcement point applies. */
  lemma DecisionsAreCoerced(conv: Conv, tool: E.Tool, args: Args, task: string, seen: set<string>)
    requires forall name | name in IdentifierArgs(tool) && name in tool.properties :: tool.properties[name] == Text
    ensures var final := Proposed(conv, tool, args, task, seen);
            Coerced(conv.rules, tool.properties, final) == final
  {
    var extracted := Extracted(conv, task);
    var filled := Coerced(conv.rules, tool.properties, WithGapsFilled(tool.properties, args, extracted));
    var final := Resolved(conv.rules, IdentifierArgs(tool), filled, seen, extracted);
    CoercionIsIdempotent(conv.rules, tool.properties, WithGapsFilled(tool.properties, args, extracted));
    forall k | k in final
      ensures k in tool.properties && Coerce(conv.rules, final[k], tool.properties[k]) == final[k]
    {
      if k in IdentifierArgs(tool) && Invented(conv.rules, filled, seen, k) {
        ExtractedIdsAreTokens(conv, task, k);
      } else {
        assert Coerced(conv.rules, tool.properties, filled)[k] == filled[k];
      }
    }
    CoercedInPlace(conv.rules, tool.properties, final);
  }

  lemma CoercedInPlace(rules: TextRules, properties: Properties, args: Args)
    requires forall k | k in args :: k in properties && Coerce(rules, args[k], properties[k]) == args[k]
    ensures Coerced(rules, properties, args) == args
  {
    assert Coerced(rules, properties, args) == args;
  }
}
