/**
 Alerts as an operator sees them, by the kind and target of a rule rather than by its id: when
 what is told about one condition of one subject is raise, resolve, raise, resolve.
 */
module AlertIdentities {
  import opened Text
  import opened Alerts

  /** What was told about one identity and subject, in order. */
  function ToldOf(told: seq<Transition>, who: Identity, subject: string): seq<Transition> {
    if told == [] then []
    else
      var last := told[|told| - 1];
      ToldOf(told[..|told| - 1], who, subject)
      + if last.who == Some(who) && last.subject == subject then [last] else []
  }

  predicate IsSpanOf(rules: seq<Rule>, e: Event, who: Identity, subject: string) {
    e.IsOpen() && e.subject == subject && IdentityOf(rules, e.rule) == Some(who)
  }

  /** This event is open for this identity and subject. */
  predicate HasSpanOf(rules: seq<Rule>, events: seq<Event>, who: Identity, subject: string, id: nat) {
    exists i :: 0 <= i < |events| && IsSpanOf(rules, events[i], who, subject) && events[i].id == id
  }

  ghost predicate NoneOpen(s: Store, who: Identity, subject: string) {
    forall id: nat :: !HasSpanOf(s.rules, s.events, who, subject, id)
  }

  /** The statement does not delete the identity's rule while its event for the subject is open. */
  ghost predicate Careful(s: Store, act: Action, who: Identity, subject: string) {
    act.DeleteRule? && Identity(act.kind, Coalesce(act.target)) == who ==> NoneOpen(s, who, subject)
  }

  ghost predicate CarefulRun(s: Store, acts: seq<Action>, who: Identity, subject: string)
    decreases |acts|
  {
    acts == [] || (Careful(s, acts[0], who, subject) && CarefulRun(Step(s, acts[0]), acts[1..], who, subject))
  }

  ghost predicate FaithfulTo(s: Store, who: Identity, subject: string) {
    var ts := ToldOf(s.told, who, subject);
    && Alternates(ts)
    && forall id: nat :: Pending(ts, id) <==> HasSpanOf(s.rules, s.events, who, subject, id)
  }

  // ----------------------------------------------------------------- identities

  lemma {:induction false} IdentityHasRule(rules: seq<Rule>, id: nat) returns (k: nat)
    requires IdentityOf(rules, id).Some?
    ensures k < |rules| && rules[k].id == id
    ensures IdentityOf(rules, id) == Some(Identity(rules[k].kind, Coalesce(rules[k].target)))
    decreases |rules|
  {
    if rules[0].id == id {
      k := 0;
    } else {
      k := IdentityHasRule(rules[1..], id);
      k := k + 1;
    }
  }

  lemma {:induction false} RuleHasIdentity(rules: seq<Rule>, k: nat)
    requires k < |rules|
    ensures IdentityOf(rules, rules[k].id).Some?
    decreases |rules|
  {
    if rules[0].id != rules[k].id {
      RuleHasIdentity(rules[1..], k - 1);
    }
  }

  /** An identity belongs to one rule only. */
  lemma OneRule(s: Store, a: nat, b: nat)
    requires Rules(s) && IdentityOf(s.rules, a).Some? && IdentityOf(s.rules, a) == IdentityOf(s.rules, b)
    ensures a == b
  {
    var k := IdentityHasRule(s.rules, a);
    var l := IdentityHasRule(s.rules, b);
    assert Identifies(s.rules[k], s.rules[l].kind, s.rules[l].target);
    assert Identifies(s.rules[l], s.rules[k].kind, s.rules[k].target);
  }

  lemma {:induction false} IdentityUpdated(rules: seq<Rule>, i: nat, rule: Rule, id: nat)
    requires i < |rules| && rule.id == rules[i].id && rule.kind == rules[i].kind && rule.target == rules[i].target
    ensures IdentityOf(rules[i := rule], id) == IdentityOf(rules, id)
    decreases |rules|
  {
    if i == 0 {
      assert rules[i := rule][1..] == rules[1..];
    } else {
      assert rules[i := rule][1..] == rules[1..][i - 1 := rule];
      IdentityUpdated(rules[1..], i - 1, rule, id);
    }
  }

  lemma {:induction false} IdentityAdded(rules: seq<Rule>, rule: Rule, id: nat)
    ensures id != rule.id ==> IdentityOf(rules + [rule], id) == IdentityOf(rules, id)
    ensures !HasRule(rules, rule.id) ==>
              IdentityOf(rules + [rule], rule.id) == Some(Identity(rule.kind, Coalesce(rule.target)))
    decreases |rules|
  {
    var more := rules + [rule];
    if rules != [] {
      assert more[0] == rules[0] && more[1..] == rules[1..] + [rule];
      IdentityAdded(rules[1..], rule, id);
      if !HasRule(rules, rule.id) {
        forall i | 0 <= i < |rules| - 1
          ensures rules[1..][i].id != rule.id
        {
          assert rules[1..][i] == rules[i + 1];
        }
      }
    }
  }

  predicate DistinctIds(rules: seq<Rule>) {
    forall i, j :: 0 <= i < j < |rules| ==> rules[i].id != rules[j].id
  }

  lemma NoIdentity(rules: seq<Rule>, id: nat)
    requires forall i :: 0 <= i < |rules| ==> rules[i].id != id
    ensures IdentityOf(rules, id) == None
  {
    if IdentityOf(rules, id).Some? {
      var k := IdentityHasRule(rules, id);
    }
  }

  lemma {:induction false} IdentityFiltered(rules: seq<Rule>, kind: Kind, target: Option<string>, id: nat)
    requires DistinctIds(rules)
    ensures var was := IdentityOf(rules, id);
            IdentityOf(Filter(rules, Unlike(kind, target)), id)
            == if was == Some(Identity(kind, Coalesce(target))) then None else was
    decreases |rules|
  {
    if rules != [] {
      IdentityFiltered(rules[1..], kind, target, id);
      var rest := Filter(rules[1..], Unlike(kind, target));
      if !Identifies(rules[0], kind, target) {
        assert Filter(rules, Unlike(kind, target)) == [rules[0]] + rest;
        assert ([rules[0]] + rest)[1..] == rest;
      } else if rules[0].id == id {
        NoIdentity(rules[1..], id);
      }
    }
  }

  // ----------------------------------------------------------------- what every careful statement keeps

  lemma ToldOfMore(told: seq<Transition>, t: Transition, who: Identity, subject: string)
    ensures ToldOf(told + [t], who, subject)
            == ToldOf(told, who, subject) + if t.who == Some(who) && t.subject == subject then [t] else []
  {
    assert (told + [t])[..|told|] == told;
  }

  /** The same event is open before and after, if any. */
  ghost predicate SameOpen(s: Store, next: Store, who: Identity, subject: string) {
    forall id: nat ::
      HasSpanOf(next.rules, next.events, who, subject, id) <==> HasSpanOf(s.rules, s.events, who, subject, id)
  }

  lemma SameOpenFaithful(s: Store, next: Store, who: Identity, subject: string)
    requires FaithfulTo(s, who, subject) && next.told == s.told && SameOpen(s, next, who, subject)
    ensures FaithfulTo(next, who, subject)
  {
  }

  /** Events whose rules keep their identities keep theirs. */
  lemma SameIdentities(rules: seq<Rule>, rules': seq<Rule>, events: seq<Event>, who: Identity, subject: string, id: nat)
    requires forall i :: 0 <= i < |events| ==> IdentityOf(rules', events[i].rule) == IdentityOf(rules, events[i].rule)
    ensures HasSpanOf(rules', events, who, subject, id) <==> HasSpanOf(rules, events, who, subject, id)
  {
  }

  lemma SetKeepsOpen(s: Store, act: Action, who: Identity, subject: string)
    requires Rules(s) && Events(s) && act.SetRule?
    ensures SameOpen(s, Step(s, act), who, subject) && Step(s, act).told == s.told
  {
    var next := Step(s, act);
    var i := RuleAt(s.rules, act.kind, act.target);
    forall k | 0 <= k < |s.events|
      ensures IdentityOf(next.rules, s.events[k].rule) == IdentityOf(s.rules, s.events[k].rule)
    {
      var rule := s.events[k].rule;
      assert HasRule(s.rules, rule);
      if i < |s.rules| {
        IdentityUpdated(s.rules, i, next.rules[i], rule);
      } else {
        IdentityAdded(s.rules, next.rules[i], rule);
      }
    }
    forall id: nat
      ensures HasSpanOf(next.rules, next.events, who, subject, id) <==> HasSpanOf(s.rules, s.events, who, subject, id)
    {
      SameIdentities(s.rules, next.rules, s.events, who, subject, id);
    }
  }

  lemma DeleteOpens(s: Store, kind: Kind, target: Option<string>, who: Identity, subject: string, id: nat)
    requires Rules(s) && Events(s)
    ensures var next := WithoutRule(s, kind, target);
            HasSpanOf(next.rules, next.events, who, subject, id)
            <==> who != Identity(kind, Coalesce(target)) && HasSpanOf(s.rules, s.events, who, subject, id)
  {
    var next := WithoutRule(s, kind, target);
    if HasSpanOf(next.rules, next.events, who, subject, id) {
      var i :| 0 <= i < |next.events| && IsSpanOf(next.rules, next.events[i], who, subject) && next.events[i].id == id;
      var k := FilterFrom(s.events, Under(next.rules), i);
      IdentityFiltered(s.rules, kind, target, s.events[k].rule);
    }
    if who != Identity(kind, Coalesce(target)) && HasSpanOf(s.rules, s.events, who, subject, id) {
      var k :| 0 <= k < |s.events| && IsSpanOf(s.rules, s.events[k], who, subject) && s.events[k].id == id;
      IdentityFiltered(s.rules, kind, target, s.events[k].rule);
      var l := IdentityHasRule(next.rules, s.events[k].rule);
      assert HasRule(next.rules, s.events[k].rule);
      var i := FilterHas(s.events, Under(next.rules), k);
    }
  }

  lemma DeleteFaithful(s: Store, kind: Kind, target: Option<string>, who: Identity, subject: string)
    requires Rules(s) && Events(s) && FaithfulTo(s, who, subject)
    requires Identity(kind, Coalesce(target)) == who ==> NoneOpen(s, who, subject)
    ensures FaithfulTo(WithoutRule(s, kind, target), who, subject)
  {
    forall id: nat
      ensures var next := WithoutRule(s, kind, target);
              HasSpanOf(next.rules, next.events, who, subject, id) <==> HasSpanOf(s.rules, s.events, who, subject, id)
    {
      DeleteOpens(s, kind, target, who, subject, id);
    }
    SameOpenFaithful(s, WithoutRule(s, kind, target), who, subject);
  }

  lemma PurgeKeepsOpen(s: Store, cutoff: int, who: Identity, subject: string, id: nat)
    ensures HasSpanOf(s.rules, Filter(s.events, Lasting(cutoff)), who, subject, id)
            <==> HasSpanOf(s.rules, s.events, who, subject, id)
  {
    var kept := Filter(s.events, Lasting(cutoff));
    if HasSpanOf(s.rules, s.events, who, subject, id) {
      var k :| 0 <= k < |s.events| && IsSpanOf(s.rules, s.events[k], who, subject) && s.events[k].id == id;
      var i := FilterHas(s.events, Lasting(cutoff), k);
    }
    if HasSpanOf(s.rules, kept, who, subject, id) {
      var i :| 0 <= i < |kept| && IsSpanOf(s.rules, kept[i], who, subject) && kept[i].id == id;
      var k := FilterFrom(s.events, Lasting(cutoff), i);
    }
  }

  lemma NotifyKeepsOpen(s: Store, event: nat, who: Identity, subject: string, id: nat)
    ensures HasSpanOf(s.rules, Notify(s.events, event), who, subject, id)
            <==> HasSpanOf(s.rules, s.events, who, subject, id)
  {
    var r := Notify(s.events, event);
    if HasSpanOf(s.rules, s.events, who, subject, id) {
      var k :| 0 <= k < |s.events| && IsSpanOf(s.rules, s.events[k], who, subject) && s.events[k].id == id;
      assert IsSpanOf(s.rules, r[k], who, subject) && r[k].id == id;
    }
  }

  lemma RaiseOpens(s: Store, e: Event, who: Identity, subject: string, id: nat)
    requires Rules(s) && e.IsOpen() && SpanAt(s.events, e.rule, e.subject) == |s.events|
    ensures HasSpanOf(s.rules, s.events + [e], who, subject, id)
            <==> if IsSpanOf(s.rules, e, who, subject) then id == e.id else HasSpanOf(s.rules, s.events, who, subject, id)
    ensures IsSpanOf(s.rules, e, who, subject) ==> !HasSpanOf(s.rules, s.events, who, subject, id)
  {
    var more := s.events + [e];
    assert more[|s.events|] == e;
    if HasSpanOf(s.rules, s.events, who, subject, id) {
      var k :| 0 <= k < |s.events| && IsSpanOf(s.rules, s.events[k], who, subject) && s.events[k].id == id;
      assert more[k] == s.events[k];
      if IsSpanOf(s.rules, e, who, subject) {
        OneRule(s, e.rule, s.events[k].rule);
      }
    }
    if HasSpanOf(s.rules, more, who, subject, id) {
      var k :| 0 <= k < |more| && IsSpanOf(s.rules, more[k], who, subject) && more[k].id == id;
      if k < |s.events| {
        assert more[k] == s.events[k];
      }
    }
  }

  lemma RaiseFaithfulTo(s: Store, e: Event, who: Identity, subject: string)
    requires Rules(s) && FaithfulTo(s, who, subject)
    requires e.IsOpen() && SpanAt(s.events, e.rule, e.subject) == |s.events|
    ensures FaithfulTo(s.(events := s.events + [e],
                          told := s.told + [Transition(true, e.rule, e.subject, e.id, IdentityOf(s.rules, e.rule))]),
                       who, subject)
  {
    var t := Transition(true, e.rule, e.subject, e.id, IdentityOf(s.rules, e.rule));
    var ts := ToldOf(s.told, who, subject);
    ToldOfMore(s.told, t, who, subject);
    forall id: nat
      ensures HasSpanOf(s.rules, s.events + [e], who, subject, id)
              <==> if IsSpanOf(s.rules, e, who, subject) then id == e.id
                   else HasSpanOf(s.rules, s.events, who, subject, id)
      ensures IsSpanOf(s.rules, e, who, subject) ==> !Pending(ts, id)
    {
      RaiseOpens(s, e, who, subject, id);
    }
    if IsSpanOf(s.rules, e, who, subject) {
      NotPending(ts);
      RaiseAlternates(ts, t);
    }
  }

  lemma ResolveCloses(s: Store, i: nat, now: int, who: Identity, subject: string, id: nat)
    requires Rules(s) && OneOpen(s.events) && i < |s.events| && s.events[i].IsOpen()
    ensures HasSpanOf(s.rules, s.events[i := s.events[i].(resolvedAt := Some(now))], who, subject, id)
            <==> !IsSpanOf(s.rules, s.events[i], who, subject) && HasSpanOf(s.rules, s.events, who, subject, id)
  {
    var next := s.events[i := s.events[i].(resolvedAt := Some(now))];
    if HasSpanOf(s.rules, s.events, who, subject, id) && !IsSpanOf(s.rules, s.events[i], who, subject) {
      var k :| 0 <= k < |s.events| && IsSpanOf(s.rules, s.events[k], who, subject) && s.events[k].id == id;
      assert next[k] == s.events[k];
    }
    if HasSpanOf(s.rules, next, who, subject, id) {
      var k :| 0 <= k < |next| && IsSpanOf(s.rules, next[k], who, subject) && next[k].id == id;
      assert k != i && next[k] == s.events[k];
      if IsSpanOf(s.rules, s.events[i], who, subject) {
        OneRule(s, s.events[i].rule, s.events[k].rule);
      }
    }
  }

  lemma ResolveFaithfulTo(s: Store, event: nat, now: int, who: Identity, subject: string)
    requires Rules(s) && OneOpen(s.events) && FaithfulTo(s, who, subject) && OpenAt(s.events, event) < |s.events|
    ensures FaithfulTo(Resolved(s, event, now), who, subject)
  {
    var next := Resolved(s, event, now);
    var i := OpenAt(s.events, event);
    var e := s.events[i];
    var t := Transition(false, e.rule, e.subject, event, IdentityOf(s.rules, e.rule));
    ToldOfMore(s.told, t, who, subject);
    forall id: nat
      ensures HasSpanOf(s.rules, next.events, who, subject, id)
              <==> !IsSpanOf(s.rules, e, who, subject) && HasSpanOf(s.rules, s.events, who, subject, id)
    {
      ResolveCloses(s, i, now, who, subject, id);
    }
    if IsSpanOf(s.rules, e, who, subject) {
      assert HasSpanOf(s.rules, s.events, who, subject, event);
      ResolveAlternates(ToldOf(s.told, who, subject), t);
    }
  }

  lemma RaiseStepFaithful(s: Store, act: Action, who: Identity, subject: string)
    requires Rules(s) && FaithfulTo(s, who, subject) && act.Raise?
    ensures FaithfulTo(Step(s, act), who, subject)
  {
    var next := Step(s, act);
    if next != s {
      var e := Event(s.nextEvent, act.rule, act.subject, act.message, act.value, act.now, None, 0);
      RaiseFaithfulTo(s, e, who, subject);
      var t := Transition(true, e.rule, e.subject, e.id, IdentityOf(s.rules, e.rule));
      SameOpenFaithful(s.(events := s.events + [e], told := s.told + [t]), next, who, subject);
    }
  }

  lemma QuietStepFaithful(s: Store, act: Action, who: Identity, subject: string)
    requires Rules(s) && Events(s) && FaithfulTo(s, who, subject)
    requires act.SetRule? || act.MarkNotified? || act.Purge?
    ensures FaithfulTo(Step(s, act), who, subject)
  {
    if act.SetRule? {
      SetKeepsOpen(s, act, who, subject);
    } else if act.MarkNotified? {
      forall id: nat
        ensures HasSpanOf(s.rules, Notify(s.events, act.event), who, subject, id)
                <==> HasSpanOf(s.rules, s.events, who, subject, id)
      {
        NotifyKeepsOpen(s, act.event, who, subject, id);
      }
    } else {
      forall id: nat
        ensures HasSpanOf(s.rules, Filter(s.events, Lasting(Cutoff(act.now, act.days))), who, subject, id)
                <==> HasSpanOf(s.rules, s.events, who, subject, id)
      {
        PurgeKeepsOpen(s, Cutoff(act.now, act.days), who, subject, id);
      }
    }
    SameOpenFaithful(s, Step(s, act), who, subject);
  }

  lemma StepFaithful(s: Store, act: Action, who: Identity, subject: string)
    requires Holds(s) && FaithfulTo(s, who, subject) && Careful(s, act, who, subject)
    ensures FaithfulTo(Step(s, act), who, subject)
  {
    match act
    case DeleteRule(kind, target) => DeleteFaithful(s, kind, target, who, subject);
    case Raise(_, _, _, _, _) => RaiseStepFaithful(s, act, who, subject);
    case Resolve(event, now) =>
      if OpenAt(s.events, event) < |s.events| {
        ResolveFaithfulTo(s, event, now, who, subject);
      }
    case _ => QuietStepFaithful(s, act, who, subject);
  }

  lemma {:induction false} ExecuteFaithful(s: Store, acts: seq<Action>, who: Identity, subject: string)
    requires Holds(s) && FaithfulTo(s, who, subject) && CarefulRun(s, acts, who, subject)
    ensures FaithfulTo(Execute(s, acts), who, subject)
    decreases |acts|
  {
    if acts != [] {
      StepHolds(s, acts[0]);
      StepFaithful(s, acts[0], who, subject);
      ExecuteFaithful(Step(s, acts[0]), acts[1..], who, subject);
    }
  }

  // ----------------------------------------------------------------- the laws

  /**
   Over every run in which the identity's rule is never deleted while its event for a subject
   is open, what is told about that identity and subject is raise, resolve, raise, resolve,
   each resolve about the event raised before it, and a raise is the last of it exactly as
   long as its event is open.
   */
  lemma IdentityAlternates(acts: seq<Action>, who: Identity, subject: string)
    requires CarefulRun(Empty(), acts, who, subject)
    ensures FaithfulTo(Execute(Empty(), acts), who, subject)
  {
    EmptyHolds();
    ExecuteFaithful(Empty(), acts, who, subject);
  }

  /** From here on, however careful the run, what is told goes on alternating. */
  ghost predicate StaysAlternating(s: Store, who: Identity, subject: string) {
    forall more :: CarefulRun(s, more, who, subject) ==> Alternates(ToldOf(Execute(s, more).told, who, subject))
  }

  lemma ToldTwice(ts: seq<Transition>, t: Transition)
    requires Alternates(ts) && ts != [] && ts[|ts| - 1].raised && t.raised
    ensures !Alternates(ts + [t])
  {
    var n := |ts|;
    assert (ts + [t])[n] == t && (ts + [t])[n - 1] == ts[n - 1];
  }

  /** The rule is set again under a fresh id that nothing was ever told about. */
  lemma SetAgain(s: Store, kind: Kind, target: Option<string>)
    requires Rules(s) && Events(s) && forall i :: 0 <= i < |s.rules| ==> !Identifies(s.rules[i], kind, target)
    ensures var next := Step(s, SetRule(kind, target, 0.0, true, 0));
            && next.told == s.told && next.events == s.events
            && HasRule(next.rules, s.nextRule)
            && IdentityOf(next.rules, s.nextRule) == Some(Identity(kind, Coalesce(target)))
  {
    var rule := Rule(s.nextRule, kind, target, 0.0, true, 0, 0);
    assert RuleAt(s.rules, kind, target) == |s.rules|;
    HasRuleAdded(s.rules, rule, s.nextRule);
    IdentityAdded(s.rules, rule, s.nextRule);
  }

  lemma NoSpanYet(s: Store, rule: nat, subject: string)
    requires forall i :: 0 <= i < |s.events| ==> s.events[i].rule < rule
    ensures SpanAt(s.events, rule, subject) == |s.events|
  {
  }

  /** Set again and raised again, the forgotten condition is told a second time. */
  lemma ToldAgain(s: Store, kind: Kind, target: Option<string>, subject: string, e: nat)
    requires Rules(s) && Events(s) && forall i :: 0 <= i < |s.rules| ==> !Identifies(s.rules[i], kind, target)
    requires var ts := ToldOf(s.told, Identity(kind, Coalesce(target)), subject); Alternates(ts) && Pending(ts, e)
    ensures !StaysAlternating(s, Identity(kind, Coalesce(target)), subject)
  {
    var who := Identity(kind, Coalesce(target));
    var create, again := SetRule(kind, target, 0.0, true, 0), Raise(s.nextRule, subject, "", None, 0);
    var next := Step(s, create);
    SetAgain(s, kind, target);
    forall i | 0 <= i < |s.events|
      ensures s.events[i].rule < s.nextRule
    {
      var k :| 0 <= k < |s.rules| && s.rules[k].id == s.events[i].rule;
    }
    NoSpanYet(next, s.nextRule, subject);
    var t := Transition(true, s.nextRule, subject, next.nextEvent, Some(who));
    assert Step(next, again).told == s.told + [t];
    ToldOfMore(s.told, t, who, subject);
    ToldTwice(ToldOf(s.told, who, subject), t);
    var more := [create] + ([again] + []);
    ExecuteCons(s, create, [again] + []);
    ExecuteCons(next, again, []);
    assert more[1..] == [again] + [] && ([again] + [])[1..] == [];
    assert CarefulRun(Step(next, again), [], who, subject);
    assert CarefulRun(next, [again] + [], who, subject);
    assert CarefulRun(s, more, who, subject);
  }

  /**
   After any careful run, deleting an identity's rule leaves what is told about the identity
   and a subject alternating, in every careful continuation, exactly when no event of the rule
   is open for that subject: a caller that lists the open events can tell beforehand.
   */
  lemma DeleteIsHarmlessExactlyWhen(acts: seq<Action>, kind: Kind, target: Option<string>, subject: string)
    requires CarefulRun(Empty(), acts, Identity(kind, Coalesce(target)), subject)
    ensures var who := Identity(kind, Coalesce(target));
            var s := Execute(Empty(), acts);
            StaysAlternating(Step(s, DeleteRule(kind, target)), who, subject) <==> NoneOpen(s, who, subject)
  {
    var who := Identity(kind, Coalesce(target));
    var s := Execute(Empty(), acts);
    var next := Step(s, DeleteRule(kind, target));
    EmptyHolds();
    Alerts.ExecuteHolds(Empty(), acts);
    StepHolds(s, DeleteRule(kind, target));
    IdentityAlternates(acts, who, subject);
    if NoneOpen(s, who, subject) {
      StepFaithful(s, DeleteRule(kind, target), who, subject);
      forall more | CarefulRun(next, more, who, subject)
        ensures Alternates(ToldOf(Execute(next, more).told, who, subject))
      {
        ExecuteFaithful(next, more, who, subject);
      }
    } else {
      var e: nat :| HasSpanOf(s.rules, s.events, who, subject, e);
      FilterMembers(s.rules, Unlike(kind, target));
      forall i | 0 <= i < |next.rules|
        ensures !Identifies(next.rules[i], kind, target)
      {
        assert next.rules[i] in next.rules;
      }
      ToldAgain(next, kind, target, subject, e);
    }
  }
}
