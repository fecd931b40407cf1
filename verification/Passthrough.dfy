/** The option parser that diverts options it does not know into `passthrough_options`. */
module Passthrough {
  import opened Common

  type Count = n: nat | n >= 1 witness 1

  datatype Arity = Flag | Takes(nargs: Count)
  datatype Known = Known(name: string, arity: Arity)

  /** One call of option.process: the option as it is known, and its values. */
  datatype Event = Event(opt: string, values: seq<string>)

  /** What is declared. `long` is optparse's matching of long options: the option it settles on, or
      None where it raises BadOptionError. `accepts` is whether processing the values succeeds. */
  datatype Grammar = Grammar(
    long: string -> Option<Known>, short: map<char, Arity>, accepts: Event -> bool, interspersed: bool)

  /** What one turn of the parsing loop does: end the program with an error, or use up some tokens. */
  datatype Step = Rejected | Took(used: nat, events: seq<Event>, passed: seq<string>, left: seq<string>)

  datatype Outcome = Exit | Parsed(events: seq<Event>, passed: seq<string>, left: seq<string>, rest: seq<string>)

  // ---------- Long options ----------

  function IndexOf(c: char, s: string): (i: nat)
    ensures i <= |s| && (i < |s| ==> s[i] == c) && c !in s[..i]
  {
    if s == "" then 0 else if s[0] == c then 0 else 1 + IndexOf(c, s[1..])
  }

  /** The part of a token before its first '=', if any. */
  function OptPart(arg: string): (opt: string)
    ensures opt <= arg && '=' !in opt && (|opt| < |arg| ==> arg[|opt|] == '=')
  {
    arg[..IndexOf('=', arg)]
  }

  function Process(g: Grammar, used: nat, event: Event): Step {
    if g.accepts(event) then Took(used, [event], [], []) else Rejected
  }

  /** An unknown long option is passed on verbatim, an attached value with it. A known one takes its
      values from the following tokens, an attached value counting as the first. */
  function LongStep(g: Grammar, rargs: seq<string>): (s: Step)
    requires rargs != []
    ensures s.Took? ==> s.left == []
  {
    var arg := rargs[0];
    var eq := IndexOf('=', arg);
    match g.long(OptPart(arg))
    case None => Took(1, [], [arg], [])
    case Some(Known(name, Flag)) =>
      if eq < |arg| then Rejected else Process(g, 1, Event(name, []))
    case Some(Known(name, Takes(n))) =>
      if eq < |arg| then
        if |rargs| < n then Rejected else Process(g, n, Event(name, [arg[eq + 1..]] + rargs[1..n]))
      else
        if |rargs| - 1 < n then Rejected else Process(g, n + 1, Event(name, rargs[1..n + 1]))
  }

  // ---------- Clusters of short options ----------

  datatype Cluster = Bad | Good(used: nat, events: seq<Event>, unknown: string)

  function Prepend(events: seq<Event>, unknown: string, c: Cluster): Cluster {
    if c.Bad? then Bad else Good(c.used, events + c.events, unknown + c.unknown)
  }

  /** The characters of a cluster: unknown ones are set aside, known flags processed, and the first
      option that takes values gets the remaining characters, if any, as the first of them. */
  function Chars(g: Grammar, chars: string, rest: seq<string>): Cluster {
    if chars == "" then Good(0, [], "")
    else if chars[0] !in g.short then Prepend([], [chars[0]], Chars(g, chars[1..], rest))
    else
      var opt := ['-', chars[0]];
      match g.short[chars[0]]
      case Flag =>
        if g.accepts(Event(opt, [])) then Prepend([Event(opt, [])], "", Chars(g, chars[1..], rest)) else Bad
      case Takes(n) =>
        if |chars| > 1 then
          if 1 + |rest| < n then Bad
          else
            var event := Event(opt, [chars[1..]] + rest[..n - 1]);
            if g.accepts(event) then Good(n - 1, [event], "") else Bad
        else
          if |rest| < n then Bad
          else
            var event := Event(opt, rest[..n]);
            if g.accepts(event) then Good(n, [event], "") else Bad
  }

  function ShortStep(g: Grammar, rargs: seq<string>): (s: Step)
    requires rargs != [] && rargs[0] != ""
    ensures s.Took? ==> s.left == []
  {
    match Chars(g, rargs[0][1..], rargs[1..])
    case Bad => Rejected
    case Good(used, events, unknown) =>
      Took(1 + used, events, if unknown == "" then [] else ["-" + unknown], [])
  }

  // ---------- The loop ----------

  predicate IsLong(arg: string) {
    "--" <= arg && arg != "--"
  }

  predicate IsCluster(arg: string) {
    "-" <= arg && arg != "-" && !("--" <= arg)
  }

  /** The loop ends here: nothing is left, a "--", or a positional when those may not be mixed in. */
  predicate Stops(g: Grammar, rargs: seq<string>) {
    rargs == [] || rargs[0] == "--" || (!IsLong(rargs[0]) && !IsCluster(rargs[0]) && !g.interspersed)
  }

  function Next(g: Grammar, rargs: seq<string>): Step
    requires !Stops(g, rargs)
  {
    if IsLong(rargs[0]) then LongStep(g, rargs)
    else if IsCluster(rargs[0]) then ShortStep(g, rargs)
    else Took(1, [], [], [rargs[0]])
  }

  function Remaining(rargs: seq<string>): seq<string> {
    if rargs != [] && rargs[0] == "--" then rargs[1..] else rargs
  }

  function After(s: Step, o: Outcome): Outcome
    requires s.Took?
  {
    if o.Exit? then Exit
    else Parsed(s.events + o.events, s.passed + o.passed, s.left + o.left, o.rest)
  }

  /** A whole parse, as a function of the argument list. */
  function Parse(g: Grammar, rargs: seq<string>): Outcome
    decreases |rargs|
  {
    if Stops(g, rargs) then Parsed([], [], [], Remaining(rargs))
    else if Next(g, rargs).Rejected? then Exit
    else
      StepUses(g, rargs);
      After(Next(g, rargs), Parse(g, rargs[Next(g, rargs).used..]))
  }

  // ---------- Termination: tokens used ----------

  /** The values an argument's option is declared to take; for a cluster, its first such option. */
  function Declared(g: Grammar, arg: string): nat {
    if IsLong(arg) then
      match g.long(OptPart(arg))
      case Some(Known(_, Takes(n))) => n
      case _ => 0
    else if IsCluster(arg) then DeclaredInCluster(g, arg[1..])
    else 0
  }

  function DeclaredInCluster(g: Grammar, chars: string): nat {
    if chars == "" then 0
    else if chars[0] in g.short && g.short[chars[0]].Takes? then g.short[chars[0]].nargs
    else DeclaredInCluster(g, chars[1..])
  }

  /** Whether the first of those values is attached to the argument itself. */
  predicate Attached(g: Grammar, arg: string) {
    if IsLong(arg) then '=' in arg else IsCluster(arg) && AttachedInCluster(g, arg[1..])
  }

  predicate AttachedInCluster(g: Grammar, chars: string) {
    chars != "" &&
    if chars[0] in g.short && g.short[chars[0]].Takes? then |chars| > 1 else AttachedInCluster(g, chars[1..])
  }

  lemma {:induction false} CharsUse(g: Grammar, chars: string, rest: seq<string>)
    ensures var c := Chars(g, chars, rest);
            c.Good? ==>
              && c.used <= |rest|
              && c.used == DeclaredInCluster(g, chars) - (if AttachedInCluster(g, chars) then 1 else 0)
    ensures AttachedInCluster(g, chars) ==> DeclaredInCluster(g, chars) >= 1
    decreases |chars|
  {
    if chars != "" {
      CharsUse(g, chars[1..], rest);
    }
  }

  /** A turn that does not end the program uses up the argument itself and exactly the values declared
      for it, except one that is attached to it; so the list gets strictly shorter although attached
      values are pushed back onto it. */
  lemma StepUses(g: Grammar, rargs: seq<string>)
    requires !Stops(g, rargs) && Next(g, rargs).Took?
    ensures 1 <= Next(g, rargs).used <= |rargs|
    ensures var arg, used := rargs[0], Next(g, rargs).used;
            used == 1 + Declared(g, arg) - (if Declared(g, arg) > 0 && Attached(g, arg) then 1 else 0)
  {
    hide Chars, DeclaredInCluster, AttachedInCluster;
    if IsCluster(rargs[0]) {
      CharsUse(g, rargs[0][1..], rargs[1..]);
    }
  }

  // ---------- Non-interference ----------

  lemma {:induction false} CharsAreLocal(g: Grammar, chars: string, rest: seq<string>, other: seq<string>)
    requires Chars(g, chars, rest).Good?
    requires var n := Chars(g, chars, rest).used; n <= |rest| && n <= |other| && other[..n] == rest[..n]
    ensures Chars(g, chars, other) == Chars(g, chars, rest)
    decreases |chars|
  {
    if chars != "" && !(chars[0] in g.short && g.short[chars[0]].Takes?) {
      CharsAreLocal(g, chars[1..], rest, other);
    }
  }

  /** A turn depends only on the tokens it uses up. */
  lemma StepIsLocal(g: Grammar, rargs: seq<string>, other: seq<string>)
    requires !Stops(g, rargs) && Next(g, rargs).Took?
    requires var n := Next(g, rargs).used; 1 <= n <= |rargs| && n <= |other| && other[..n] == rargs[..n]
    ensures !Stops(g, other) && Next(g, other) == Next(g, rargs)
  {
    hide Chars;
    var n := Next(g, rargs).used;
    assert other[0] == other[..n][0] == rargs[0];
    if IsCluster(rargs[0]) {
      assert other[1..][..n - 1] == other[..n][1..] == rargs[1..][..n - 1];
      CharsAreLocal(g, rargs[0][1..], rargs[1..], other[1..]);
    } else if IsLong(rargs[0]) {
      assert other[1..n] == other[..n][1..] == rargs[1..n];
    }
  }

  /** Position `p` of the arguments is where some turn of the loop starts. */
  predicate Boundary(g: Grammar, args: seq<string>, p: nat)
    decreases p
  {
    p <= |args| &&
    (p == 0 || (!Stops(g, args) && Next(g, args).Took? && 1 <= Next(g, args).used <= p &&
                Boundary(g, args[Next(g, args).used..], p - Next(g, args).used)))
  }

  /** How many tokens were passed through before that turn. */
  function PassedBefore(g: Grammar, args: seq<string>, p: nat): nat
    requires Boundary(g, args, p)
    decreases p
  {
    if p == 0 then 0
    else |Next(g, args).passed| + PassedBefore(g, args[Next(g, args).used..], p - Next(g, args).used)
  }

  predicate UnknownLong(g: Grammar, token: string) {
    IsLong(token) && g.long(OptPart(token)).None?
  }

  function Insert<T>(s: seq<T>, q: nat, t: T): seq<T>
    requires q <= |s|
  {
    s[..q] + [t] + s[q..]
  }

  lemma InsertBehind<T>(front: seq<T>, s: seq<T>, q: nat, t: T)
    requires q <= |s|
    ensures front + Insert(s, q, t) == Insert(front + s, |front| + q, t)
  {
  }

  lemma UnknownStep(g: Grammar, args: seq<string>, token: string)
    requires Foreign(g, token)
    ensures !Stops(g, [token] + args) && Next(g, [token] + args) == Took(1, [], [token], [])
    ensures Insert(args, 0, token) == [token] + args && ([token] + args)[1..] == args
  {
    hide Next, Stops, Passable, Bites;
    TokenPassesAgain(g, [token] + args);
  }

  /** An unknown long option, or a cluster of unknown characters, inserted at an option boundary changes
      nothing but the passed-through list, where it appears verbatim at its place: the same options are
      processed with the same values, the positionals are the same, and the parse fails exactly when it
      failed before. */
  lemma {:induction false} UnknownOptionDoesNotInterfere(g: Grammar, args: seq<string>, p: nat, token: string)
    requires Boundary(g, args, p) && Foreign(g, token)
    ensures Parse(g, args).Parsed? ==> PassedBefore(g, args, p) <= |Parse(g, args).passed|
    ensures Parse(g, Insert(args, p, token)) ==
            match Parse(g, args)
            case Exit => Exit
            case Parsed(events, passed, left, rest) =>
              Parsed(events, Insert(passed, PassedBefore(g, args, p), token), left, rest)
    decreases p
  {
    hide Next, Stops, Foreign, Remaining, Parse, Insert;
    var longer := Insert(args, p, token);
    if p == 0 {
      UnknownStep(g, args, token);
      ParseSteps(g, longer);
      AfterPassing(token, Parse(g, args));
    } else {
      var step := Next(g, args);
      InsertBeyond(args, p, token, step.used);
      StepIsLocal(g, args, longer);
      ParseSteps(g, args);
      ParseSteps(g, longer);
      UnknownOptionDoesNotInterfere(g, args[step.used..], p - step.used, token);
      var o := Parse(g, args[step.used..]);
      if o.Parsed? {
        InsertBehind(step.passed, o.passed, PassedBefore(g, args[step.used..], p - step.used), token);
      }
    }
  }

  lemma ParseSteps(g: Grammar, rargs: seq<string>)
    requires !Stops(g, rargs) && Next(g, rargs).Took? && Next(g, rargs).used <= |rargs|
    ensures Parse(g, rargs) == After(Next(g, rargs), Parse(g, rargs[Next(g, rargs).used..]))
  {
  }

  lemma AfterPassing(token: string, o: Outcome)
    ensures After(Took(1, [], [token], []), o) ==
            if o.Exit? then Exit else Parsed(o.events, Insert(o.passed, 0, token), o.left, o.rest)
  {
  }

  lemma InsertBeyond<T>(s: seq<T>, p: nat, t: T, n: nat)
    requires n <= p <= |s|
    ensures n <= |Insert(s, p, t)| && Insert(s, p, t)[..n] == s[..n]
    ensures Insert(s, p, t)[n..] == Insert(s[n..], p - n, t)
  {
  }

  // ---------- What a cluster is split into ----------

  /** How many characters of a cluster are looked at as options. */
  function Looked(g: Grammar, chars: string): (k: nat)
    ensures k <= |chars|
    ensures forall i :: 0 <= i < k - 1 ==> !TakesValues(g, chars[i])
    ensures k < |chars| ==> k > 0 && TakesValues(g, chars[k - 1])
  {
    if chars == "" then 0
    else if chars[0] in g.short && g.short[chars[0]].Takes? then 1
    else 1 + Looked(g, chars[1..])
  }

  predicate TakesValues(g: Grammar, c: char) {
    c in g.short && g.short[c].Takes?
  }

  function UnknownChars(g: Grammar, chars: string): string {
    if chars == "" then ""
    else (if chars[0] in g.short then "" else [chars[0]]) + UnknownChars(g, chars[1..])
  }

  function KnownOpts(g: Grammar, chars: string): seq<string> {
    if chars == "" then []
    else (if chars[0] in g.short then [['-', chars[0]]] else []) + KnownOpts(g, chars[1..])
  }

  function Opts(events: seq<Event>): seq<string> {
    if events == [] then [] else [events[0].opt] + Opts(events[1..])
  }

  /** A cluster's account of its characters: those looked at split into processed options and
      passed-through characters, both in order; what is left is the first value of the option that
      stopped it. */
  ghost predicate SplitBy(g: Grammar, chars: string, k: nat, events: seq<Event>, unknown: string)
    requires k <= |chars|
  {
    && Opts(events) == KnownOpts(g, chars[..k])
    && unknown == UnknownChars(g, chars[..k])
    && (k < |chars| ==> events != [] && events[|events| - 1].values != [] &&
                        events[|events| - 1].values[0] == chars[k..])
  }

  lemma {:induction false} ClusterSplits(g: Grammar, chars: string, rest: seq<string>)
    requires Chars(g, chars, rest).Good?
    ensures SplitBy(g, chars, Looked(g, chars), Chars(g, chars, rest).events, Chars(g, chars, rest).unknown)
    decreases |chars|
  {
    hide SplitBy;
    if chars == "" {
      NothingSplit(g);
    } else if chars[0] in g.short && g.short[chars[0]].Takes? {
      StopSplits(g, chars, Chars(g, chars, rest).events[0]);
    } else {
      ClusterSplits(g, chars[1..], rest);
      var c := Chars(g, chars[1..], rest);
      CharSplits(g, chars, Looked(g, chars[1..]), c.events, c.unknown,
                 if chars[0] in g.short then [Event(['-', chars[0]], [])] else []);
    }
  }

  lemma NothingSplit(g: Grammar)
    ensures SplitBy(g, "", 0, [], "")
  {
  }

  lemma StopSplits(g: Grammar, chars: string, event: Event)
    requires chars != "" && chars[0] in g.short && event.opt == ['-', chars[0]]
    requires |chars| > 1 ==> event.values != [] && event.values[0] == chars[1..]
    ensures SplitBy(g, chars, 1, [event], "")
  {
    assert chars[..1] == [chars[0]] && chars[..1][1..] == "";
  }

  lemma CharSplits(g: Grammar, chars: string, k: nat, events: seq<Event>, unknown: string, first: seq<Event>)
    requires chars != "" && k <= |chars[1..]| && SplitBy(g, chars[1..], k, events, unknown)
    requires first == if chars[0] in g.short then [Event(['-', chars[0]], [])] else []
    ensures SplitBy(g, chars, k + 1, first + events, (if chars[0] in g.short then "" else [chars[0]]) + unknown)
  {
    hide Opts, KnownOpts, UnknownChars;
    var part := chars[..k + 1];
    assert part[1..] == chars[1..][..k] && part[0] == chars[0];
    HeadChar(g, part);
    OptsHead(first, events);
    assert chars[1..][k..] == chars[k + 1..];
  }

  lemma HeadChar(g: Grammar, chars: string)
    requires chars != ""
    ensures KnownOpts(g, chars) == (if chars[0] in g.short then [['-', chars[0]]] else []) + KnownOpts(g, chars[1..])
    ensures UnknownChars(g, chars) == (if chars[0] in g.short then "" else [chars[0]]) + UnknownChars(g, chars[1..])
  {
  }

  lemma OptsHead(first: seq<Event>, events: seq<Event>)
    requires |first| <= 1
    ensures Opts(first + events) == (if first == [] then [] else [first[0].opt]) + Opts(events)
  {
    if first == [] {
      assert first + events == events;
    } else {
      assert (first + events)[1..] == events;
    }
  }

  // ---------- Accounting for the tokens ----------

  /** One turn of the loop: the tokens it uses up and what becomes of them. */
  datatype Turn = Turn(tokens: seq<string>, events: seq<Event>, passed: seq<string>, left: seq<string>)

  function Number(arity: Arity): nat {
    match arity case Flag => 0 case Takes(n) => n
  }

  function Values(events: seq<Event>): seq<string> {
    if events == [] then [] else events[0].values + Values(events[1..])
  }

  /** The text attached to a long option, if any. */
  function AfterEquals(arg: string): seq<string> {
    if '=' in arg then [arg[|OptPart(arg)| + 1..]] else []
  }

  /** The text attached to the option that stops a cluster, if any. */
  function AfterStop(g: Grammar, chars: string): seq<string> {
    if Looked(g, chars) < |chars| then [chars[Looked(g, chars)..]] else []
  }

  /** An unknown option is passed on as it is. A known one gets as values the attached text, if any, and then
      exactly the tokens behind it, as many as it is declared to take. */
  predicate LongAccounted(g: Grammar, t: Turn)
    requires t.tokens != []
  {
    var arg := t.tokens[0];
    match g.long(OptPart(arg))
    case None => t.tokens == [arg] && t.events == [] && t.passed == [arg]
    case Some(Known(name, arity)) =>
      && t.events == [Event(name, AfterEquals(arg) + t.tokens[1..])] && t.passed == []
      && |t.events[0].values| == Number(arity)
  }

  predicate Sized(g: Grammar, event: Event) {
    |event.opt| == 2 && event.opt[1] in g.short && |event.values| == Number(g.short[event.opt[1]])
  }

  /** The known characters are processed in order, each option with as many values as it is declared to take;
      together these are the attached text, if any, and then exactly the tokens behind the cluster. The
      unknown characters are passed on behind a dash. */
  predicate ClusterAccounted(g: Grammar, t: Turn)
    requires t.tokens != [] && t.tokens[0] != ""
  {
    var chars := t.tokens[0][1..];
    var looked := chars[..Looked(g, chars)];
    && Opts(t.events) == KnownOpts(g, looked)
    && (forall event <- t.events :: Sized(g, event))
    && Values(t.events) == AfterStop(g, chars) + t.tokens[1..]
    && t.passed == if UnknownChars(g, looked) == "" then [] else ["-" + UnknownChars(g, looked)]
  }

  predicate Accounted(g: Grammar, t: Turn) {
    && t.tokens != [] && t.tokens[0] != "--"
    && if IsLong(t.tokens[0]) then LongAccounted(g, t) && t.left == []
       else if IsCluster(t.tokens[0]) then ClusterAccounted(g, t) && t.left == []
       else t.events == [] && t.passed == [] && t.left == t.tokens && |t.tokens| == 1
  }

  lemma {:induction false} CharsAccounted(g: Grammar, chars: string, rest: seq<string>)
    requires Chars(g, chars, rest).Good?
    ensures var c := Chars(g, chars, rest);
            && c.used <= |rest|
            && Values(c.events) == AfterStop(g, chars) + rest[..c.used]
            && forall event <- c.events :: Sized(g, event)
    decreases |chars|
  {
    var c := Chars(g, chars, rest);
    CharsUse(g, chars, rest);
    if chars == "" {
    } else if TakesValues(g, chars[0]) {
      OneEvent(c.events);
    } else {
      CharsAccounted(g, chars[1..], rest);
      LookedFurther(g, chars);
      if chars[0] in g.short {
        FlagFirst(Event(['-', chars[0]], []), Chars(g, chars[1..], rest).events);
      } else {
        assert [] + Chars(g, chars[1..], rest).events == Chars(g, chars[1..], rest).events;
      }
    }
  }

  lemma OneEvent(events: seq<Event>)
    ensures |events| == 1 ==> Values(events) == events[0].values
  {
    if |events| == 1 {
      assert events[1..] == [] && events[0].values + [] == events[0].values;
    }
  }

  lemma FlagFirst(flag: Event, events: seq<Event>)
    requires flag.values == []
    ensures Values([flag] + events) == Values(events)
  {
    assert ([flag] + events)[1..] == events && [] + Values(events) == Values(events);
  }

  lemma LookedFurther(g: Grammar, chars: string)
    requires chars != "" && !TakesValues(g, chars[0])
    ensures AfterStop(g, chars) == AfterStop(g, chars[1..])
  {
  }

  /** What a turn does with the tokens it uses up. */
  lemma TurnAccounted(g: Grammar, rargs: seq<string>)
    requires !Stops(g, rargs) && Next(g, rargs).Took?
    ensures var step := Next(g, rargs);
            1 <= step.used <= |rargs| && Accounted(g, Turn(rargs[..step.used], step.events, step.passed, step.left))
  {
    hide Chars, Looked, LongStep, LongAccounted, ClusterAccounted;
    StepUses(g, rargs);
    if IsLong(rargs[0]) {
      LongTurnAccounted(g, rargs);
    } else if IsCluster(rargs[0]) {
      ClusterTurnAccounted(g, rargs);
    }
  }

  lemma LongTurnAccounted(g: Grammar, rargs: seq<string>)
    requires rargs != [] && LongStep(g, rargs).Took? && 1 <= LongStep(g, rargs).used <= |rargs|
    ensures var step := LongStep(g, rargs);
            LongAccounted(g, Turn(rargs[..step.used], step.events, step.passed, step.left))
  {
    var used := LongStep(g, rargs).used;
    assert rargs[..used][1..] == rargs[1..used] && rargs[..used][0] == rargs[0];
    EqualsAt(rargs[0]);
    hide IndexOf;
    if used == 1 {
      assert rargs[1..1] == [] && rargs[..1] == [rargs[0]];
    }
    assert [] + rargs[1..used] == rargs[1..used];
  }

  lemma EqualsAt(arg: string)
    ensures '=' in arg <==> IndexOf('=', arg) < |arg|
    ensures |OptPart(arg)| == IndexOf('=', arg)
  {
    if IndexOf('=', arg) == |arg| {
      assert arg[..|arg|] == arg;
    }
  }

  lemma ClusterTurnAccounted(g: Grammar, rargs: seq<string>)
    requires rargs != [] && rargs[0] != "" && ShortStep(g, rargs).Took?
    ensures var step := ShortStep(g, rargs);
            step.used <= |rargs| && ClusterAccounted(g, Turn(rargs[..step.used], step.events, step.passed, step.left))
  {
    hide Chars, Looked, Opts, KnownOpts, UnknownChars, AfterStop, Values, Sized;
    var chars, rest := rargs[0][1..], rargs[1..];
    CharsAccounted(g, chars, rest);
    ClusterSplits(g, chars, rest);
    var used := ShortStep(g, rargs).used;
    assert rargs[..used][0] == rargs[0] && rargs[..used][1..] == rest[..used - 1];
  }

  function AllTokens(turns: seq<Turn>): seq<string> {
    if turns == [] then [] else turns[0].tokens + AllTokens(turns[1..])
  }

  /** What the turns add up to. */
  function Total(turns: seq<Turn>, rest: seq<string>): Outcome {
    if turns == [] then Parsed([], [], [], rest)
    else After(Took(0, turns[0].events, turns[0].passed, turns[0].left), Total(turns[1..], rest))
  }

  /** A parse that does not fail cuts the command line into turns: its tokens are, in order, each used once, as
      an option, a value, a passed-on option or a positional, and nothing else is processed or passed on. It
      ends at the end, behind a "--", or before the first positional when those may not be mixed in. */
  lemma {:induction false} ParseAccounted(g: Grammar, args: seq<string>) returns (turns: seq<Turn>, end: seq<string>)
    requires Parse(g, args).Parsed?
    ensures forall t <- turns :: Accounted(g, t) && (!g.interspersed ==> t.left == [])
    ensures args == AllTokens(turns) + end + Parse(g, args).rest
    ensures Parse(g, args) == Total(turns, Parse(g, args).rest)
    ensures var rest := Parse(g, args).rest;
            end == ["--"] ||
            (end == [] && (rest == [] || (!g.interspersed && IsPositional(rest[0]))))
    decreases |args|
  {
    hide Next, Stops, IsPositional, Accounted, Parse, After, Total, AllTokens;
    if Stops(g, args) {
      end := ParseStops(g, args);
      turns := [];
    } else {
      ParseTakes(g, args);
      TurnAccounted(g, args);
      OnlyPositionalsLeft(g, args);
      var step := Next(g, args);
      var more, tail := ParseAccounted(g, args[step.used..]);
      var turn := Turn(args[..step.used], step.events, step.passed, step.left);
      turns, end := [turn] + more, tail;
      ParseSteps(g, args);
      UsedDoesNotMatter(step, Parse(g, args[step.used..]));
      TurnAdded(turn, more, tail, args[step.used..], Parse(g, args[step.used..]).rest);
      RestOfAfter(step, Parse(g, args[step.used..]));
      assert args == args[..step.used] + args[step.used..];
    }
  }

  predicate IsPositional(arg: string) {
    arg != "--" && !IsLong(arg) && !IsCluster(arg)
  }

  lemma ParseStops(g: Grammar, args: seq<string>) returns (end: seq<string>)
    requires Stops(g, args)
    ensures var o := Parse(g, args);
            && o == Total([], o.rest) && args == AllTokens([]) + end + o.rest
            && (end == ["--"] || (end == [] && (o.rest == [] || (!g.interspersed && IsPositional(o.rest[0])))))
  {
    end := if args != [] && args[0] == "--" then ["--"] else [];
    assert args == [] + end + Remaining(args);
  }

  lemma TurnAdded(turn: Turn, more: seq<Turn>, end: seq<string>, tokens: seq<string>, rest: seq<string>)
    requires tokens == AllTokens(more) + end + rest
    ensures turn.tokens + tokens == AllTokens([turn] + more) + end + rest
    ensures Total([turn] + more, rest) == After(Took(0, turn.events, turn.passed, turn.left), Total(more, rest))
  {
    assert ([turn] + more)[1..] == more;
  }

  lemma RestOfAfter(step: Step, o: Outcome)
    requires step.Took? && o.Parsed?
    ensures After(step, o).Parsed? && After(step, o).rest == o.rest
  {
  }

  lemma UsedDoesNotMatter(step: Step, o: Outcome)
    requires step.Took?
    ensures After(step, o) == After(Took(0, step.events, step.passed, step.left), o)
  {
  }

  lemma OnlyPositionalsLeft(g: Grammar, args: seq<string>)
    requires !Stops(g, args) && Next(g, args).Took?
    ensures !g.interspersed ==> Next(g, args).left == []
  {
    hide LongStep, ShortStep;
  }

  // ---------- When a turn fails ----------

  /** The option cannot have its values, or refuses them: too few are given, or one that takes none has one
      attached, or processing fails. */
  predicate Refused(g: Grammar, opt: string, arity: Arity, attached: seq<string>, rest: seq<string>) {
    match arity
    case Flag => attached != [] || !g.accepts(Event(opt, []))
    case Takes(n) =>
      var given := attached + rest;
      |given| < n || !g.accepts(Event(opt, given[..n]))
  }

  /** A turn on a long option ends the program exactly when it is known and refused. */
  lemma LongRejectedIff(g: Grammar, rargs: seq<string>)
    requires rargs != []
    ensures LongStep(g, rargs).Rejected? <==>
              var known := g.long(OptPart(rargs[0]));
              known.Some? && Refused(g, known.value.name, known.value.arity, AfterEquals(rargs[0]), rargs[1..])
  {
    EqualsAt(rargs[0]);
    hide IndexOf;
    var known := g.long(OptPart(rargs[0]));
    if known.Some? && known.value.arity.Takes? {
      var n, rest := known.value.arity.nargs, rargs[1..];
      if '=' in rargs[0] && n <= |rargs| {
        assert (AfterEquals(rargs[0]) + rest)[..n] == AfterEquals(rargs[0]) + rargs[1..n];
      } else if '=' !in rargs[0] {
        assert AfterEquals(rargs[0]) + rest == rest;
        if n <= |rest| {
          assert rest[..n] == rargs[1..n + 1];
        }
      }
    }
  }

  /** A turn on a cluster does exactly when one of the known options up to where it stops is refused. */
  lemma {:induction false} ClusterRejectedIff(g: Grammar, chars: string, rest: seq<string>)
    ensures Chars(g, chars, rest).Bad? <==>
              exists i :: 0 <= i < Looked(g, chars) && RefusedAt(g, chars, rest, i)
    decreases |chars|
  {
    if chars == "" {
    } else if TakesValues(g, chars[0]) {
      StopRejects(g, chars, rest);
    } else {
      ClusterRejectedIff(g, chars[1..], rest);
      RefusedFurther(g, chars, rest);
      FirstRejects(g, chars, rest);
    }
  }

  lemma RefusedFurther(g: Grammar, chars: string, rest: seq<string>)
    requires chars != "" && !TakesValues(g, chars[0])
    ensures Looked(g, chars) == 1 + Looked(g, chars[1..])
    ensures (exists i :: 0 <= i < Looked(g, chars) && RefusedAt(g, chars, rest, i)) <==>
              RefusedAt(g, chars, rest, 0) ||
              exists i :: 0 <= i < Looked(g, chars[1..]) && RefusedAt(g, chars[1..], rest, i)
  {
    hide Refused;
    LookedFurther(g, chars);
    forall i | 0 < i < Looked(g, chars) ensures RefusedAt(g, chars, rest, i) == RefusedAt(g, chars[1..], rest, i - 1) {
    }
    if i :| 0 <= i < Looked(g, chars) && RefusedAt(g, chars, rest, i) {
      assert i > 0 ==> RefusedAt(g, chars[1..], rest, i - 1);
    }
    if i :| 0 <= i < Looked(g, chars[1..]) && RefusedAt(g, chars[1..], rest, i) {
      assert RefusedAt(g, chars, rest, i + 1);
    }
  }

  lemma FirstRejects(g: Grammar, chars: string, rest: seq<string>)
    requires chars != "" && !TakesValues(g, chars[0])
    ensures Chars(g, chars, rest).Bad? <==> RefusedAt(g, chars, rest, 0) || Chars(g, chars[1..], rest).Bad?
  {
  }

  /** Character i of a cluster is a known option and refused; the attached text belongs to the one that takes
      values. */
  predicate RefusedAt(g: Grammar, chars: string, rest: seq<string>, i: nat)
    requires i < |chars|
  {
    chars[i] in g.short &&
    Refused(g, ['-', chars[i]], g.short[chars[i]], if TakesValues(g, chars[i]) then AfterStop(g, chars) else [], rest)
  }

  lemma StopRejects(g: Grammar, chars: string, rest: seq<string>)
    requires chars != "" && TakesValues(g, chars[0])
    ensures Chars(g, chars, rest).Bad? <==> RefusedAt(g, chars, rest, 0)
    ensures Looked(g, chars) == 1
  {
    var n := g.short[chars[0]].nargs;
    var given := AfterStop(g, chars) + rest;
    if |chars| > 1 && n <= |given| {
      assert given[..n] == [chars[1..]] + rest[..n - 1];
    } else if |chars| == 1 {
      assert given == rest;
    }
  }

  // ---------- Parsing the passed-through options again ----------

  /** A cluster of which no character is a known option. */
  predicate UnknownCluster(g: Grammar, token: string) {
    |token| >= 2 && token[0] == '-' && forall i :: 1 <= i < |token| ==> token[i] !in g.short
  }

  /** A token that a second parse would not pass through: "--" ends it, a known option is processed. */
  predicate Bites(g: Grammar, token: string) {
    token == "--" || (IsLong(token) && g.long(OptPart(token)).Some?)
  }

  predicate Passable(g: Grammar, token: string) {
    UnknownLong(g, token) || UnknownCluster(g, token)
  }

  /** An unknown long option or a cluster of unknown characters. */
  predicate Foreign(g: Grammar, token: string) {
    Passable(g, token) && !Bites(g, token)
  }

  lemma {:induction false} UnknownCharsAre(g: Grammar, chars: string, rest: seq<string>)
    requires Chars(g, chars, rest).Good?
    ensures forall c :: c in Chars(g, chars, rest).unknown ==> c !in g.short && c in chars
    decreases |chars|
  {
    if chars != "" && !(chars[0] in g.short && g.short[chars[0]].Takes?) {
      UnknownCharsAre(g, chars[1..], rest);
    }
  }

  lemma StepPasses(g: Grammar, rargs: seq<string>)
    requires !Stops(g, rargs) && Next(g, rargs).Took?
    ensures forall t :: t in Next(g, rargs).passed ==> Passable(g, t)
    ensures (IsCluster(rargs[0]) ==> '-' !in rargs[0][1..]) ==>
              forall t :: t in Next(g, rargs).passed ==> !Bites(g, t)
  {
    hide Chars;
    if IsCluster(rargs[0]) {
      UnknownCharsAre(g, rargs[0][1..], rargs[1..]);
      var unknown := Chars(g, rargs[0][1..], rargs[1..]).unknown;
      assert forall i :: 1 <= i < |"-" + unknown| ==> ("-" + unknown)[i] in unknown;
    }
  }

  lemma {:induction false} PassedArePassable(g: Grammar, args: seq<string>)
    requires Parse(g, args).Parsed?
    ensures forall t :: t in Parse(g, args).passed ==> Passable(g, t)
    decreases |args|
  {
    hide Next, Stops, Passable;
    if !Stops(g, args) {
      StepUses(g, args);
      StepPasses(g, args);
      PassedArePassable(g, args[Next(g, args).used..]);
    }
  }

  lemma {:induction false} AllUnknown(g: Grammar, chars: string, rest: seq<string>)
    requires forall i :: 0 <= i < |chars| ==> chars[i] !in g.short
    ensures Chars(g, chars, rest) == Good(0, [], chars)
  {
    if chars != "" {
      AllUnknown(g, chars[1..], rest);
    }
  }

  lemma TokenPassesAgain(g: Grammar, tokens: seq<string>)
    requires tokens != [] && Passable(g, tokens[0]) && !Bites(g, tokens[0])
    ensures !Stops(g, tokens) && Next(g, tokens) == Took(1, [], [tokens[0]], [])
  {
    hide Chars, OptPart;
    var token := tokens[0];
    if !IsLong(token) {
      assert token == "-" + token[1..];
      AllUnknown(g, token[1..], tokens[1..]);
    }
  }

  lemma BitingTokenDoesNot(g: Grammar, tokens: seq<string>)
    requires tokens != [] && Bites(g, tokens[0])
    ensures Parse(g, tokens) != Parsed([], tokens, [], [])
  {
    hide OptPart;
    if tokens[0] != "--" && Next(g, tokens).Took? {
      assert |Next(g, tokens).events| == 1;
    }
  }

  lemma {:induction false} ParsesToItselfIff(g: Grammar, tokens: seq<string>)
    requires forall t :: t in tokens ==> Passable(g, t)
    ensures Parse(g, tokens) == Parsed([], tokens, [], []) <==> forall t :: t in tokens ==> !Bites(g, t)
    decreases |tokens|
  {
    hide Next, Stops, Passable, Bites;
    if tokens != [] {
      assert tokens == [tokens[0]] + tokens[1..];
      if Bites(g, tokens[0]) {
        BitingTokenDoesNot(g, tokens);
      } else {
        TokenPassesAgain(g, tokens);
        ParsesToItselfIff(g, tokens[1..]);
        var o := Parse(g, tokens[1..]);
        if Parse(g, tokens) == Parsed([], tokens, [], []) {
          assert o.passed == tokens[1..];
        }
      }
    } else {
      EmptyParse(g);
    }
  }

  lemma EmptyParse(g: Grammar)
    ensures Parse(g, []) == Parsed([], [], [], [])
  {
  }

  /** What a cluster passes on, read off its characters: the unknown ones before the first option that
      takes values, behind a dash. */
  function LeftOver(g: Grammar, arg: string): string
    requires arg != ""
  {
    "-" + UnknownChars(g, arg[1..][..Looked(g, arg[1..])])
  }

  /** At position p a turn starts on a cluster that leaves "--" or a known long option over. */
  predicate BitesAt(g: Grammar, args: seq<string>, p: nat) {
    Boundary(g, args, p) && p < |args| && !Stops(g, args[p..]) && IsCluster(args[p]) && Bites(g, LeftOver(g, args[p]))
  }

  lemma ClusterLeaves(g: Grammar, rargs: seq<string>)
    requires rargs != [] && IsCluster(rargs[0]) && ShortStep(g, rargs).Took?
    ensures (exists t :: t in ShortStep(g, rargs).passed && Bites(g, t)) <==> Bites(g, LeftOver(g, rargs[0]))
  {
    hide Chars, Looked, UnknownChars, Opts, KnownOpts, OptPart;
    var c := Chars(g, rargs[0][1..], rargs[1..]);
    ClusterSplits(g, rargs[0][1..], rargs[1..]);
    assert LeftOver(g, rargs[0]) == "-" + c.unknown;
    if c.unknown != "" {
      assert ShortStep(g, rargs).passed == ["-" + c.unknown];
      assert "-" + c.unknown in ShortStep(g, rargs).passed;
    }
  }

  lemma StepBites(g: Grammar, rargs: seq<string>)
    requires !Stops(g, rargs) && Next(g, rargs).Took?
    ensures (exists t :: t in Next(g, rargs).passed && Bites(g, t)) <==> BitesAt(g, rargs, 0)
  {
    hide ShortStep, LeftOver;
    assert rargs[0..] == rargs;
    if IsCluster(rargs[0]) {
      ClusterLeaves(g, rargs);
    }
  }

  lemma BoundaryMoves(g: Grammar, args: seq<string>, p: nat)
    requires !Stops(g, args) && Next(g, args).Took? && 1 <= Next(g, args).used <= |args|
    ensures p > 0 ==>
              (BitesAt(g, args, p) <==>
                p >= Next(g, args).used && BitesAt(g, args[Next(g, args).used..], p - Next(g, args).used))
  {
    hide Next, Stops, IsCluster, Bites, LeftOver;
    var used := Next(g, args).used;
    if used <= p <= |args| {
      assert args[used..][p - used..] == args[p..];
    }
  }

  /** The collected options that bite come from the clusters that do. */
  lemma {:induction false} PassedBiteIff(g: Grammar, args: seq<string>)
    requires Parse(g, args).Parsed?
    ensures (exists t :: t in Parse(g, args).passed && Bites(g, t)) <==> exists p: nat :: BitesAt(g, args, p)
    decreases |args|
  {
    hide Next, Stops, Bites, BitesAt, Parse;
    if Stops(g, args) {
      StoppedBitesNot(g, args);
    } else {
      ParseTakes(g, args);
      var used := Next(g, args).used;
      StepBites(g, args);
      PassedBiteIff(g, args[used..]);
      forall p: nat ensures p > 0 ==> (BitesAt(g, args, p) <==> p >= used && BitesAt(g, args[used..], p - used)) {
        BoundaryMoves(g, args, p);
      }
      if p: nat :| BitesAt(g, args[used..], p) {
        assert BitesAt(g, args, used + p);
      }
      BitesOfBoth(g, Next(g, args).passed, Parse(g, args[used..]).passed);
    }
  }

  lemma ParseTakes(g: Grammar, args: seq<string>)
    requires !Stops(g, args) && Parse(g, args).Parsed?
    ensures Next(g, args).Took? && 1 <= Next(g, args).used <= |args|
    ensures var o := Parse(g, args[Next(g, args).used..]);
            o.Parsed? && Parse(g, args).passed == Next(g, args).passed + o.passed
  {
    hide Next, Stops;
    StepUses(g, args);
  }

  lemma BitesOfBoth(g: Grammar, a: seq<string>, b: seq<string>)
    ensures (exists t :: t in a + b && Bites(g, t)) <==>
              (exists t :: t in a && Bites(g, t)) || (exists t :: t in b && Bites(g, t))
  {
    hide Bites;
    if t :| t in a && Bites(g, t) {
      assert t in a + b;
    }
    if t :| t in b && Bites(g, t) {
      assert t in a + b;
    }
  }

  lemma StoppedBitesNot(g: Grammar, args: seq<string>)
    requires Stops(g, args)
    ensures Parse(g, args).passed == []
    ensures forall p: nat :: !BitesAt(g, args, p)
  {
    forall p: nat ensures !BitesAt(g, args, p) {
      assert args[0..] == args;
    }
  }

  /** Parsing the collected options again processes nothing and collects the same list, exactly when no
      cluster of the command line leaves "--" or a known long option over. */
  lemma ReparseIsIdempotentIff(g: Grammar, args: seq<string>)
    requires Parse(g, args).Parsed?
    ensures var passed := Parse(g, args).passed;
            Parse(g, passed) == Parsed([], passed, [], []) <==> forall p: nat :: !BitesAt(g, args, p)
  {
    hide Passable, Bites, BitesAt;
    PassedArePassable(g, args);
    ParsesToItselfIff(g, Parse(g, args).passed);
    PassedBiteIff(g, args);
  }

  /** None is when no cluster on the command line has a dash inside. */
  lemma {:induction false} NoInnerDashNoBite(g: Grammar, args: seq<string>)
    requires Parse(g, args).Parsed?
    requires forall arg :: arg in args && IsCluster(arg) ==> '-' !in arg[1..]
    ensures forall t :: t in Parse(g, args).passed ==> !Bites(g, t)
    decreases |args|
  {
    hide Next, Stops, Bites, IsCluster;
    if args != [] && !Stops(g, args) {
      StepUses(g, args);
      StepPasses(g, args);
      NoInnerDashNoBite(g, args[Next(g, args).used..]);
    } else {
      EmptyParse(g);
    }
  }

  lemma InnerDashChars(g: Grammar, a: char, b: char)
    requires a in g.short && g.short[a] == Flag && g.accepts(Event(['-', a], []))
    requires '-' !in g.short && b !in g.short
    ensures Chars(g, [a, '-', b], []) == Good(0, [Event(['-', a], [])], ['-', b])
  {
    assert [a, '-', b][1..] == ['-', b];
    AllUnknown(g, ['-', b], []);
  }

  /** With a dash inside, a cluster can come out as a long option: of -a-b with -a known, --b is left. */
  lemma InnerDashMakesLongOption(g: Grammar, a: char, b: char)
    requires a != '-' && a in g.short && g.short[a] == Flag && g.accepts(Event(['-', a], []))
    requires '-' !in g.short && b !in g.short
    ensures Parse(g, [['-', a, '-', b]]) == Parsed([Event(['-', a], [])], [['-', '-', b]], [], [])
    ensures Bites(g, ['-', '-', b]) <==> g.long(OptPart(['-', '-', b])).Some?
  {
    hide Chars;
    var arg: string := ['-', a, '-', b];
    var args: seq<string> := [arg];
    InnerDashChars(g, a, b);
    assert arg[1..] == [a, '-', b] && args[1..] == [] && "-" + ['-', b] == ['-', '-', b];
    assert Chars(g, args[0][1..], args[1..]) == Good(0, [Event(['-', a], [])], ['-', b]);
    assert arg[0] == '-' && arg[1] == a && "--"[1] == '-';
    assert IsCluster(arg) && Next(g, args) == ShortStep(g, args);
    assert Next(g, args) == Took(1, [Event(['-', a], [])], [['-', '-', b]], []);
    hide Next;
    EmptyParse(g);
  }

  // ---------- The parser ----------

  class PassthroughParser {
    const g: Grammar
    var rargs: seq<string>
    var processed: seq<Event>
    var passthrough: seq<string>
    var largs: seq<string>

    constructor (g: Grammar, args: seq<string>)
      ensures this.g == g && rargs == args && processed == [] && passthrough == [] && largs == []
    {
      this.g, rargs, processed, passthrough, largs := g, args, [], [], [];
    }

    /** option.process; false where its error ends the program. */
    method ProcessOption(event: Event) returns (ok: bool)
      modifies `processed
      ensures ok == g.accepts(event)
      ensures ok ==> processed == old(processed) + [event]
    {
      ok := g.accepts(event);
      if ok {
        processed := processed + [event];
      }
    }

    method ProcessLongOpt() returns (ok: bool)
      requires rargs != []
      modifies `rargs, `processed, `passthrough
      ensures ok <==> LongStep(g, old(rargs)).Took?
      ensures ok ==>
                var step := LongStep(g, old(rargs));
                && step.used <= |old(rargs)| && rargs == old(rargs)[step.used..]
                && processed == old(processed) + step.events
                && passthrough == old(passthrough) + step.passed
    {
      hide IndexOf;
      ghost var args := rargs;
      var arg := rargs[0];
      rargs := rargs[1..];
      var eq := IndexOf('=', arg);
      var explicit := eq < |arg|;
      if explicit {
        rargs := [arg[eq + 1..]] + rargs;
      }
      var matched := g.long(OptPart(arg));
      if matched.None? {
        passthrough := passthrough + [arg];
        if explicit {
          rargs := rargs[1..];
        }
        assert rargs == args[1..];
        return true;
      }
      var values: seq<string> := [];
      if matched.value.arity.Takes? {
        var nargs := matched.value.arity.nargs;
        if |rargs| < nargs {
          return false;
        }
        values := rargs[0..nargs];
        rargs := rargs[nargs..];
        if explicit {
          assert values == [arg[eq + 1..]] + args[1..nargs];
          assert rargs == args[nargs..];
        } else {
          assert values == args[1..nargs + 1];
          assert rargs == args[nargs + 1..];
        }
      } else if explicit {
        return false;
      }
      ok := ProcessOption(Event(matched.value.name, values));
    }

    method ProcessShortOpts() returns (ok: bool)
      requires rargs != [] && rargs[0] != ""
      modifies `rargs, `processed, `passthrough
      ensures ok <==> ShortStep(g, old(rargs)).Took?
      ensures ok ==>
                var step := ShortStep(g, old(rargs));
                && step.used <= |old(rargs)| && rargs == old(rargs)[step.used..]
                && processed == old(processed) + step.events
                && passthrough == old(passthrough) + step.passed
    {
      var arg := rargs[0];
      rargs := rargs[1..];
      ghost var rest := rargs;
      ghost var all := Chars(g, arg[1..], rest);
      ghost var events: seq<Event> := [];
      var stop := false;
      var i := 1;
      var unknown: string := "";
      PrependNothing(all);
      while i < |arg| && !stop
        invariant 1 <= i <= |arg| && (stop ==> i < |arg|)
        invariant passthrough == old(passthrough) && processed == old(processed) + events
        invariant if stop || i == |arg|
                  then all.Good? && all.events == events && all.unknown == unknown &&
                       all.used <= |rest| && rargs == rest[all.used..]
                  else rargs == rest && all == Prepend(events, unknown, Chars(g, arg[i..], rest))
        decreases |arg| - i, !stop
      {
        var c := arg[i];
        ghost var tail := arg[i..];
        assert tail[0] == c && tail[1..] == arg[i + 1..];
        i := i + 1;
        if c !in g.short {
          PrependTwice(events, unknown, [], [c], Chars(g, arg[i..], rest));
          unknown := unknown + [c];
          assert events + [] == events;
        } else {
          var values: seq<string> := [];
          if g.short[c].Takes? {
            if i < |arg| {
              rargs := [arg[i..]] + rargs;
              stop := true;
            }
            var nargs := g.short[c].nargs;
            if |rargs| < nargs {
              return false;
            }
            values := rargs[0..nargs];
            rargs := rargs[nargs..];
            assert if stop then values == [arg[i..]] + rest[..nargs - 1] && rargs == rest[nargs - 1..]
                   else values == rest[..nargs] && rargs == rest[nargs..];
          }
          var event := Event(['-', c], values);
          var accepted := ProcessOption(event);
          if !accepted {
            return false;
          }
          PrependTwice(events, unknown, [event], "", Chars(g, arg[i..], rest));
          events := events + [event];
          assert unknown + "" == unknown;
        }
      }
      ok := true;
      if unknown != "" {
        passthrough := passthrough + ["-" + unknown];
      }
    }

    /** optparse's loop over the arguments. */
    method ProcessArgs() returns (ok: bool)
      modifies this
      ensures ok <==> Parse(g, old(rargs)).Parsed?
      ensures ok ==>
                var o := Parse(g, old(rargs));
                && processed == old(processed) + o.events && passthrough == old(passthrough) + o.passed
                && largs == old(largs) + o.left && rargs == o.rest
    {
      hide LongStep, ShortStep, Parse, After;
      ghost var all := Parse(g, rargs);
      ghost var events, passed, left := [], [], [];
      AfterNothing(all);
      while rargs != []
        invariant processed == old(processed) + events && passthrough == old(passthrough) + passed
        invariant largs == old(largs) + left
        invariant all == After(Took(0, events, passed, left), Parse(g, rargs))
        decreases |rargs|
      {
        LoopTurn(g, rargs, events, passed, left);
        var arg := rargs[0];
        ghost var step := if Stops(g, rargs) then Took(0, [], [], []) else Next(g, rargs);
        if arg == "--" {
          rargs := rargs[1..];
          return true;
        } else if "--" <= arg {
          ok := ProcessLongOpt();
          if !ok {
            return false;
          }
        } else if "-" <= arg && |arg| > 1 {
          ok := ProcessShortOpts();
          if !ok {
            return false;
          }
        } else if g.interspersed {
          largs := largs + [arg];
          rargs := rargs[1..];
        } else {
          return true;
        }
        events, passed, left := events + step.events, passed + step.passed, left + step.left;
      }
      LoopTurn(g, [], events, passed, left);
      ok := true;
    }
  }

  /** One turn of the loop, seen from what has been collected so far. */
  lemma LoopTurn(g: Grammar, rargs: seq<string>, events: seq<Event>, passed: seq<string>, left: seq<string>)
    ensures var all := After(Took(0, events, passed, left), Parse(g, rargs));
            if Stops(g, rargs) then all == Parsed(events, passed, left, Remaining(rargs))
            else
              var step := Next(g, rargs);
              if step.Rejected? then all == Exit
              else
                && 1 <= step.used <= |rargs|
                && all == After(Took(0, events + step.events, passed + step.passed, left + step.left),
                                Parse(g, rargs[step.used..]))
  {
    hide LongStep, ShortStep;
    if !Stops(g, rargs) && Next(g, rargs).Took? {
      StepUses(g, rargs);
      AfterTwice(events, passed, left, Next(g, rargs), Parse(g, rargs[Next(g, rargs).used..]));
    }
  }

  lemma AfterNothing(o: Outcome)
    ensures After(Took(0, [], [], []), o) == o
  {
  }

  lemma AfterTwice(events: seq<Event>, passed: seq<string>, left: seq<string>, s: Step, o: Outcome)
    requires s.Took?
    ensures After(Took(0, events, passed, left), After(s, o)) ==
            After(Took(0, events + s.events, passed + s.passed, left + s.left), o)
  {
    if o.Parsed? {
      assert events + (s.events + o.events) == (events + s.events) + o.events;
      assert passed + (s.passed + o.passed) == (passed + s.passed) + o.passed;
      assert left + (s.left + o.left) == (left + s.left) + o.left;
    }
  }

  lemma PrependTwice(e: seq<Event>, u: string, e': seq<Event>, u': string, c: Cluster)
    ensures Prepend(e, u, Prepend(e', u', c)) == Prepend(e + e', u + u', c)
  {
    if c.Good? {
      assert e + (e' + c.events) == (e + e') + c.events;
      assert u + (u' + c.unknown) == (u + u') + c.unknown;
    }
  }

  lemma PrependNothing(c: Cluster)
    ensures Prepend([], "", c) == c
  {
  }
}
