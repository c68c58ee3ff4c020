/**
 Alert rules and alert events.  An event lasts from a raise to a resolve, for one rule and one
 subject, and callers are told of its two ends.

 Times are seconds.  Ids count up from 1 and are never used again.
 */
module Alerts {
  import opened Text

  datatype Kind = DiskPct | MemPct | Load | ServiceDown | CertExpiryDays

  datatype Rule = Rule(id: nat, kind: Kind, target: Option<string>, threshold: real, enabled: bool,
                       createdAt: int, updatedAt: int)

  datatype Event = Event(id: nat, rule: nat, subject: string, message: string, value: Option<real>,
                         raisedAt: int, resolvedAt: Option<int>, notified: nat) {
    predicate IsOpen() { resolvedAt.None? }
  }

  /** What names a rule to an operator: its kind and its target, where no target counts as the empty one. */
  datatype Identity = Identity(kind: Kind, target: string)

  /** What a call that returned an event told its caller; `who` is the identity its rule then had. */
  datatype Transition = Transition(raised: bool, rule: nat, subject: string, event: nat, who: Option<Identity>)

  datatype Store = Store(rules: seq<Rule>, events: seq<Event>, nextRule: nat, nextEvent: nat,
                         told: seq<Transition>)

  datatype StoreError = NoSuchRule

  const DAY: nat := 86400

  function Empty(): Store { Store([], [], 1, 1, []) }

  function Coalesce(target: Option<string>): string {
    if target.Some? then target.value else ""
  }

  predicate Identifies(rule: Rule, kind: Kind, target: Option<string>) {
    rule.kind == kind && Coalesce(rule.target) == Coalesce(target)
  }

  predicate IsSpan(e: Event, rule: nat, subject: string) {
    e.rule == rule && e.subject == subject && e.IsOpen()
  }

  predicate HasRule(rules: seq<Rule>, id: nat) {
    exists i :: 0 <= i < |rules| && rules[i].id == id
  }

  function IdentityOf(rules: seq<Rule>, id: nat): Option<Identity> {
    if rules == [] then None
    else if rules[0].id == id then Some(Identity(rules[0].kind, Coalesce(rules[0].target)))
    else IdentityOf(rules[1..], id)
  }

  // ----------------------------------------------------------------- the statements

  /** The position of the rule of this identity, or the length. */
  function RuleAt(rules: seq<Rule>, kind: Kind, target: Option<string>): (i: nat)
    ensures i <= |rules|
    ensures i < |rules| ==> Identifies(rules[i], kind, target)
    ensures forall j :: 0 <= j < i ==> !Identifies(rules[j], kind, target)
  {
    if rules == [] || Identifies(rules[0], kind, target) then 0 else 1 + RuleAt(rules[1..], kind, target)
  }

  function SpanAt(events: seq<Event>, rule: nat, subject: string): (i: nat)
    ensures i <= |events|
    ensures i < |events| ==> IsSpan(events[i], rule, subject)
    ensures forall j :: 0 <= j < i ==> !IsSpan(events[j], rule, subject)
  {
    if events == [] || IsSpan(events[0], rule, subject) then 0 else 1 + SpanAt(events[1..], rule, subject)
  }

  function OpenAt(events: seq<Event>, id: nat): (i: nat)
    ensures i <= |events|
    ensures i < |events| ==> events[i].id == id && events[i].IsOpen()
    ensures forall j :: 0 <= j < i ==> !(events[j].id == id && events[j].IsOpen())
  {
    if events == [] || (events[0].id == id && events[0].IsOpen()) then 0 else 1 + OpenAt(events[1..], id)
  }

  function Filter<T>(xs: seq<T>, keep: T -> bool): (r: seq<T>)
    ensures |r| <= |xs|
  {
    if xs == [] then []
    else if keep(xs[0]) then [xs[0]] + Filter(xs[1..], keep)
    else Filter(xs[1..], keep)
  }

  function Unlike(kind: Kind, target: Option<string>): Rule -> bool {
    (r: Rule) => !Identifies(r, kind, target)
  }

  function Under(rules: seq<Rule>): Event -> bool {
    (e: Event) => HasRule(rules, e.rule)
  }

  predicate Stale(e: Event, cutoff: int) {
    e.resolvedAt.Some? && e.resolvedAt.value < cutoff
  }

  function Cutoff(now: int, days: int): int {
    now - DAY * (if days < 1 then 1 else days)
  }

  function Lasting(cutoff: int): Event -> bool {
    (e: Event) => !Stale(e, cutoff)
  }

  datatype Action =
    | SetRule(kind: Kind, target: Option<string>, threshold: real, enabled: bool, now: int)
    | DeleteRule(kind: Kind, target: Option<string>)
    | Raise(rule: nat, subject: string, message: string, value: Option<real>, now: int)
    | Resolve(event: nat, now: int)
    | MarkNotified(event: nat)
    | Purge(days: int, now: int)

  function Notify(events: seq<Event>, id: nat): (r: seq<Event>)
    ensures |r| == |events|
  {
    seq(|events|, i requires 0 <= i < |events| =>
      if events[i].id == id then events[i].(notified := events[i].notified + 1) else events[i])
  }

  function WithRule(s: Store, kind: Kind, target: Option<string>, threshold: real, enabled: bool, now: int): Store {
    var i := RuleAt(s.rules, kind, target);
    if i < |s.rules|
    then s.(rules := s.rules[i := s.rules[i].(threshold := threshold, enabled := enabled, updatedAt := now)])
    else s.(rules := s.rules + [Rule(s.nextRule, kind, target, threshold, enabled, now, now)],
            nextRule := s.nextRule + 1)
  }

  function Raised(s: Store, rule: nat, subject: string, message: string, value: Option<real>, now: int): Store {
    if SpanAt(s.events, rule, subject) < |s.events| || !HasRule(s.rules, rule) then s
    else
      s.(events := s.events + [Event(s.nextEvent, rule, subject, message, value, now, None, 0)],
         nextEvent := s.nextEvent + 1,
         told := s.told + [Transition(true, rule, subject, s.nextEvent, IdentityOf(s.rules, rule))])
  }

  function Resolved(s: Store, event: nat, now: int): Store {
    var i := OpenAt(s.events, event);
    if i == |s.events| then s
    else
      s.(events := s.events[i := s.events[i].(resolvedAt := Some(now))],
         told := s.told + [Transition(false, s.events[i].rule, s.events[i].subject, event,
                                     IdentityOf(s.rules, s.events[i].rule))])
  }

  /** Deleting a rule deletes its events. */
  function WithoutRule(s: Store, kind: Kind, target: Option<string>): Store {
    var rules := Filter(s.rules, Unlike(kind, target));
    s.(rules := rules, events := Filter(s.events, Under(rules)))
  }

  function Step(s: Store, act: Action): Store {
    match act
    case SetRule(kind, target, threshold, enabled, now) => WithRule(s, kind, target, threshold, enabled, now)
    case DeleteRule(kind, target) => WithoutRule(s, kind, target)
    case Raise(rule, subject, message, value, now) => Raised(s, rule, subject, message, value, now)
    case Resolve(event, now) => Resolved(s, event, now)
    case MarkNotified(event) => s.(events := Notify(s.events, event))
    case Purge(days, now) => s.(events := Filter(s.events, Lasting(Cutoff(now, days))))
  }

  function Execute(s: Store, acts: seq<Action>): Store
    decreases |acts|
  {
    if acts == [] then s else Execute(Step(s, acts[0]), acts[1..])
  }

  // ----------------------------------------------------------------- what every statement keeps

  predicate Rules(s: Store) {
    && (forall i, j :: 0 <= i < j < |s.rules| ==> s.rules[i].id != s.rules[j].id)
    && (forall i, j :: 0 <= i < j < |s.rules| ==> !Identifies(s.rules[i], s.rules[j].kind, s.rules[j].target))
    && (forall i :: 0 <= i < |s.rules| ==> s.rules[i].id < s.nextRule)
  }

  predicate Events(s: Store) {
    && (forall i, j :: 0 <= i < j < |s.events| ==> s.events[i].id != s.events[j].id)
    && (forall i :: 0 <= i < |s.events| ==> s.events[i].id < s.nextEvent && HasRule(s.rules, s.events[i].rule))
  }

  /** At most one open event for each rule and subject. */
  predicate OneOpen(events: seq<Event>) {
    forall i, j :: 0 <= i < j < |events| && IsSpan(events[i], events[j].rule, events[j].subject) ==>
      !events[j].IsOpen()
  }

  /** What was told about one rule and subject, in order. */
  function Told(told: seq<Transition>, rule: nat, subject: string): seq<Transition> {
    if told == [] then []
    else
      var last := told[|told| - 1];
      Told(told[..|told| - 1], rule, subject)
      + if last.rule == rule && last.subject == subject then [last] else []
  }

  /** Raised, resolved, raised, resolved and so on; each resolve closes the event raised before it. */
  predicate Alternates(ts: seq<Transition>) {
    forall i :: 0 <= i < |ts| ==>
      && (ts[i].raised <==> i % 2 == 0)
      && (i % 2 == 1 ==> ts[i].event == ts[i - 1].event)
  }

  /** The last thing told was that this event was raised. */
  predicate Pending(ts: seq<Transition>, event: nat) {
    ts != [] && ts[|ts| - 1].raised && ts[|ts| - 1].event == event
  }

  predicate HasSpan(events: seq<Event>, rule: nat, subject: string, event: nat) {
    exists i :: 0 <= i < |events| && IsSpan(events[i], rule, subject) && events[i].id == event
  }

  ghost predicate Faithful(s: Store, rule: nat, subject: string) {
    var ts := Told(s.told, rule, subject);
    && Alternates(ts)
    && (HasRule(s.rules, rule) ==> forall id: nat :: Pending(ts, id) <==> HasSpan(s.events, rule, subject, id))
  }

  ghost predicate AllFaithful(s: Store) {
    forall rule: nat, subject: string :: Faithful(s, rule, subject)
  }

  predicate OldNews(s: Store) {
    forall i :: 0 <= i < |s.told| ==> s.told[i].rule < s.nextRule
  }

  ghost predicate Holds(s: Store) {
    Rules(s) && Events(s) && OneOpen(s.events) && OldNews(s) && AllFaithful(s)
  }

  lemma {:induction false} FilterFrom<T>(xs: seq<T>, keep: T -> bool, i: nat) returns (k: nat)
    requires i < |Filter(xs, keep)|
    ensures k < |xs| && xs[k] == Filter(xs, keep)[i] && keep(xs[k])
    decreases |xs|
  {
    if keep(xs[0]) && i == 0 {
      k := 0;
    } else {
      k := FilterFrom(xs[1..], keep, if keep(xs[0]) then i - 1 else i);
      k := k + 1;
    }
  }

  lemma {:induction false} FilterPair<T>(xs: seq<T>, keep: T -> bool, i: nat, j: nat) returns (k: nat, l: nat)
    requires i < j < |Filter(xs, keep)|
    ensures k < l < |xs| && xs[k] == Filter(xs, keep)[i] && xs[l] == Filter(xs, keep)[j]
    decreases |xs|
  {
    if keep(xs[0]) && i == 0 {
      k := 0;
      l := FilterFrom(xs[1..], keep, j - 1);
      l := l + 1;
    } else {
      var d := if keep(xs[0]) then 1 else 0;
      k, l := FilterPair(xs[1..], keep, i - d, j - d);
      k, l := k + 1, l + 1;
    }
  }

  lemma {:induction false} FilterHas<T>(xs: seq<T>, keep: T -> bool, k: nat) returns (i: nat)
    requires k < |xs| && keep(xs[k])
    ensures i < |Filter(xs, keep)| && Filter(xs, keep)[i] == xs[k]
    decreases |xs|
  {
    if k == 0 {
      i := 0;
    } else {
      i := FilterHas(xs[1..], keep, k - 1);
      i := if keep(xs[0]) then i + 1 else i;
    }
  }

  lemma FilterMembers<T>(xs: seq<T>, keep: T -> bool)
    ensures forall x :: x in Filter(xs, keep) <==> x in xs && keep(x)
  {
    forall x | x in Filter(xs, keep)
      ensures x in xs && keep(x)
    {
      var i :| 0 <= i < |Filter(xs, keep)| && Filter(xs, keep)[i] == x;
      var k := FilterFrom(xs, keep, i);
    }
    forall x | x in xs && keep(x)
      ensures x in Filter(xs, keep)
    {
      var k :| 0 <= k < |xs| && xs[k] == x;
      var i := FilterHas(xs, keep, k);
    }
  }

  // -- the rules

  lemma FilteredRules(s: Store, kind: Kind, target: Option<string>)
    requires Rules(s)
    ensures Rules(WithoutRule(s, kind, target))
    ensures forall id: nat :: HasRule(Filter(s.rules, Unlike(kind, target)), id) ==> HasRule(s.rules, id)
  {
    var rules := Filter(s.rules, Unlike(kind, target));
    FilterMembers(s.rules, Unlike(kind, target));
    forall i, j | 0 <= i < j < |rules|
      ensures rules[i].id != rules[j].id && !Identifies(rules[i], rules[j].kind, rules[j].target)
    {
      var k, l := FilterPair(s.rules, Unlike(kind, target), i, j);
    }
    forall i | 0 <= i < |rules|
      ensures rules[i].id < s.nextRule && HasRule(s.rules, rules[i].id)
    {
      var k := FilterFrom(s.rules, Unlike(kind, target), i);
    }
    forall id: nat | HasRule(rules, id)
      ensures HasRule(s.rules, id)
    {
      var i :| 0 <= i < |rules| && rules[i].id == id;
    }
  }

  lemma HasRuleUpdated(rules: seq<Rule>, i: nat, rule: Rule, id: nat)
    requires i < |rules| && rule.id == rules[i].id
    ensures HasRule(rules[i := rule], id) <==> HasRule(rules, id)
  {
    if HasRule(rules, id) {
      var k :| 0 <= k < |rules| && rules[k].id == id;
      assert rules[i := rule][k].id == id;
    }
  }

  lemma HasRuleAdded(rules: seq<Rule>, rule: Rule, id: nat)
    ensures HasRule(rules + [rule], id) <==> HasRule(rules, id) || id == rule.id
  {
    var more := rules + [rule];
    if HasRule(rules, id) {
      var k :| 0 <= k < |rules| && rules[k].id == id;
      assert more[k].id == id;
    }
    assert more[|rules|] == rule;
  }

  lemma SetKeepsRules(s: Store, kind: Kind, target: Option<string>, threshold: real, enabled: bool, now: int)
    requires Rules(s)
    ensures var next := WithRule(s, kind, target, threshold, enabled, now);
            && Rules(next)
            && (forall id: nat :: HasRule(s.rules, id) ==> HasRule(next.rules, id))
            && (forall id: nat :: HasRule(next.rules, id) ==> HasRule(s.rules, id) || id == s.nextRule < next.nextRule)
  {
    var next := WithRule(s, kind, target, threshold, enabled, now);
    var i := RuleAt(s.rules, kind, target);
    forall id: nat
      ensures HasRule(s.rules, id) ==> HasRule(next.rules, id)
      ensures HasRule(next.rules, id) ==> HasRule(s.rules, id) || id == s.nextRule < next.nextRule
    {
      if i < |s.rules| {
        HasRuleUpdated(s.rules, i, next.rules[i], id);
      } else {
        HasRuleAdded(s.rules, next.rules[i], id);
      }
    }
  }

  // -- the events

  lemma FilteredEvents(s: Store, keep: Event -> bool, rules: seq<Rule>)
    requires Events(s) && OneOpen(s.events)
    requires forall e :: keep(e) && HasRule(s.rules, e.rule) ==> HasRule(rules, e.rule)
    ensures Events(s.(events := Filter(s.events, keep), rules := rules)) && OneOpen(Filter(s.events, keep))
  {
    var events := Filter(s.events, keep);
    forall i, j | 0 <= i < j < |events|
      ensures events[i].id != events[j].id
      ensures IsSpan(events[i], events[j].rule, events[j].subject) ==> !events[j].IsOpen()
    {
      var k, l := FilterPair(s.events, keep, i, j);
    }
    forall i | 0 <= i < |events|
      ensures events[i].id < s.nextEvent && HasRule(rules, events[i].rule)
    {
      var k := FilterFrom(s.events, keep, i);
    }
  }

  lemma FilteredSpans(events: seq<Event>, keep: Event -> bool, rule: nat, subject: string, id: nat)
    requires forall e :: IsSpan(e, rule, subject) ==> keep(e)
    ensures HasSpan(Filter(events, keep), rule, subject, id) <==> HasSpan(events, rule, subject, id)
  {
    var kept := Filter(events, keep);
    if HasSpan(events, rule, subject, id) {
      var k :| 0 <= k < |events| && IsSpan(events[k], rule, subject) && events[k].id == id;
      var i := FilterHas(events, keep, k);
    }
    if HasSpan(kept, rule, subject, id) {
      var i :| 0 <= i < |kept| && IsSpan(kept[i], rule, subject) && kept[i].id == id;
      var k := FilterFrom(events, keep, i);
    }
  }

  lemma NotifiedSpans(events: seq<Event>, event: nat, rule: nat, subject: string, id: nat)
    ensures HasSpan(Notify(events, event), rule, subject, id) <==> HasSpan(events, rule, subject, id)
  {
    var r := Notify(events, event);
    if HasSpan(events, rule, subject, id) {
      var k :| 0 <= k < |events| && IsSpan(events[k], rule, subject) && events[k].id == id;
      assert IsSpan(r[k], rule, subject) && r[k].id == id;
    }
  }

  lemma RaisedSpans(s: Store, e: Event, rule: nat, subject: string, id: nat)
    requires e.IsOpen() && SpanAt(s.events, e.rule, e.subject) == |s.events|
    ensures HasSpan(s.events + [e], rule, subject, id)
            <==> if rule == e.rule && subject == e.subject then id == e.id else HasSpan(s.events, rule, subject, id)
  {
    var more := s.events + [e];
    assert more[|s.events|] == e;
    if HasSpan(s.events, rule, subject, id) {
      var k :| 0 <= k < |s.events| && IsSpan(s.events[k], rule, subject) && s.events[k].id == id;
      assert more[k] == s.events[k];
    }
  }

  lemma ResolvedSpans(s: Store, i: nat, now: int, rule: nat, subject: string, id: nat)
    requires OneOpen(s.events) && i < |s.events| && s.events[i].IsOpen()
    ensures HasSpan(s.events[i := s.events[i].(resolvedAt := Some(now))], rule, subject, id)
            <==> !(rule == s.events[i].rule && subject == s.events[i].subject) && HasSpan(s.events, rule, subject, id)
  {
    var next := s.events[i := s.events[i].(resolvedAt := Some(now))];
    if HasSpan(s.events, rule, subject, id) && !(rule == s.events[i].rule && subject == s.events[i].subject) {
      var k :| 0 <= k < |s.events| && IsSpan(s.events[k], rule, subject) && s.events[k].id == id;
      assert next[k] == s.events[k];
    }
    if HasSpan(next, rule, subject, id) {
      var k :| 0 <= k < |next| && IsSpan(next[k], rule, subject) && next[k].id == id;
      assert k != i && next[k] == s.events[k];
    }
  }

  // -- what was told

  lemma ToldMore(told: seq<Transition>, t: Transition, rule: nat, subject: string)
    ensures Told(told + [t], rule, subject)
            == Told(told, rule, subject) + if t.rule == rule && t.subject == subject then [t] else []
  {
    assert (told + [t])[..|told|] == told;
  }

  lemma {:induction false} NothingTold(told: seq<Transition>, rule: nat, subject: string)
    requires forall i :: 0 <= i < |told| ==> told[i].rule < rule
    ensures Told(told, rule, subject) == []
    decreases |told|
  {
    if told != [] {
      NothingTold(told[..|told| - 1], rule, subject);
    }
  }

  lemma SameTold(s: Store, next: Store, rule: nat, subject: string)
    requires Faithful(s, rule, subject) && next.told == s.told
    requires HasRule(next.rules, rule) ==> HasRule(s.rules, rule)
    requires HasRule(next.rules, rule) ==>
               forall id: nat :: HasSpan(next.events, rule, subject, id) <==> HasSpan(s.events, rule, subject, id)
    ensures Faithful(next, rule, subject)
  {
  }

  lemma SetFaithful(s: Store, next: Store, rule: nat, subject: string)
    requires Holds(s) && next.told == s.told && next.events == s.events
    requires HasRule(next.rules, rule) ==> HasRule(s.rules, rule) || rule == s.nextRule
    ensures Faithful(next, rule, subject)
  {
    assert Faithful(s, rule, subject);
    if rule == s.nextRule {
      NothingTold(s.told, rule, subject);
      forall id: nat
        ensures !HasSpan(next.events, rule, subject, id)
      {
      }
    }
  }

  lemma RaiseAlternates(ts: seq<Transition>, t: Transition)
    requires Alternates(ts) && t.raised && (ts != [] ==> !ts[|ts| - 1].raised)
    ensures Alternates(ts + [t])
    ensures forall id: nat :: Pending(ts + [t], id) <==> id == t.event
  {
  }

  lemma ResolveAlternates(ts: seq<Transition>, t: Transition)
    requires Alternates(ts) && !t.raised && Pending(ts, t.event)
    ensures Alternates(ts + [t])
    ensures forall id: nat :: !Pending(ts + [t], id)
  {
  }

  lemma NotPending(ts: seq<Transition>)
    requires forall id: nat :: !Pending(ts, id)
    ensures ts != [] ==> !ts[|ts| - 1].raised
  {
    if ts != [] {
      assert !Pending(ts, ts[|ts| - 1].event);
    }
  }

  lemma RaiseFaithful(s: Store, e: Event, who: Option<Identity>, rule: nat, subject: string)
    requires Faithful(s, rule, subject)
    requires e.IsOpen() && HasRule(s.rules, e.rule) && SpanAt(s.events, e.rule, e.subject) == |s.events|
    ensures Faithful(s.(events := s.events + [e], told := s.told + [Transition(true, e.rule, e.subject, e.id, who)]),
                     rule, subject)
  {
    var t := Transition(true, e.rule, e.subject, e.id, who);
    ToldMore(s.told, t, rule, subject);
    forall id: nat
      ensures HasSpan(s.events + [e], rule, subject, id)
              <==> if rule == e.rule && subject == e.subject then id == e.id else HasSpan(s.events, rule, subject, id)
    {
      RaisedSpans(s, e, rule, subject, id);
    }
    if rule == e.rule && subject == e.subject {
      var ts := Told(s.told, rule, subject);
      forall id: nat
        ensures !Pending(ts, id)
      {
        assert !HasSpan(s.events, rule, subject, id);
      }
      NotPending(ts);
      RaiseAlternates(ts, t);
    }
  }

  lemma ResolveFaithful(s: Store, event: nat, now: int, rule: nat, subject: string)
    requires Events(s) && OneOpen(s.events) && Faithful(s, rule, subject) && OpenAt(s.events, event) < |s.events|
    ensures Faithful(Resolved(s, event, now), rule, subject)
  {
    var next := Resolved(s, event, now);
    var i := OpenAt(s.events, event);
    var e := s.events[i];
    var t := Transition(false, e.rule, e.subject, event, IdentityOf(s.rules, e.rule));
    ToldMore(s.told, t, rule, subject);
    forall id: nat
      ensures HasSpan(next.events, rule, subject, id)
              <==> !(rule == e.rule && subject == e.subject) && HasSpan(s.events, rule, subject, id)
    {
      ResolvedSpans(s, i, now, rule, subject, id);
    }
    if rule == e.rule && subject == e.subject {
      assert HasSpan(s.events, rule, subject, event);
      ResolveAlternates(Told(s.told, rule, subject), t);
    }
  }

  // -- each statement

  lemma SetHolds(s: Store, kind: Kind, target: Option<string>, threshold: real, enabled: bool, now: int)
    requires Holds(s)
    ensures Holds(WithRule(s, kind, target, threshold, enabled, now))
  {
    var next := WithRule(s, kind, target, threshold, enabled, now);
    SetKeepsRules(s, kind, target, threshold, enabled, now);
    forall rule: nat, subject: string
      ensures Faithful(next, rule, subject)
    {
      SetFaithful(s, next, rule, subject);
    }
  }

  lemma DeleteHolds(s: Store, kind: Kind, target: Option<string>)
    requires Holds(s)
    ensures Holds(WithoutRule(s, kind, target))
  {
    var next := WithoutRule(s, kind, target);
    FilteredRules(s, kind, target);
    FilteredEvents(s, Under(next.rules), next.rules);
    forall rule: nat, subject: string
      ensures Faithful(next, rule, subject)
    {
      assert Faithful(s, rule, subject);
      if HasRule(next.rules, rule) {
        forall id: nat
          ensures HasSpan(next.events, rule, subject, id) <==> HasSpan(s.events, rule, subject, id)
        {
          FilteredSpans(s.events, Under(next.rules), rule, subject, id);
        }
      }
      SameTold(s, next, rule, subject);
    }
  }

  lemma RaiseHolds(s: Store, rule: nat, subject: string, message: string, value: Option<real>, now: int)
    requires Holds(s)
    ensures Holds(Raised(s, rule, subject, message, value, now))
  {
    var next := Raised(s, rule, subject, message, value, now);
    if next != s {
      var e := Event(s.nextEvent, rule, subject, message, value, now, None, 0);
      var who := IdentityOf(s.rules, rule);
      var i :| 0 <= i < |s.rules| && s.rules[i].id == rule;
      forall r: nat, sub: string
        ensures Faithful(next, r, sub)
      {
        assert Faithful(s, r, sub);
        RaiseFaithful(s, e, who, r, sub);
        SameTold(s.(events := s.events + [e], told := s.told + [Transition(true, rule, subject, e.id, who)]), next, r, sub);
      }
    }
  }

  lemma ResolveHolds(s: Store, event: nat, now: int)
    requires Holds(s)
    ensures Holds(Resolved(s, event, now))
  {
    var i := OpenAt(s.events, event);
    if i < |s.events| {
      var next := Resolved(s, event, now);
      var k :| 0 <= k < |s.rules| && s.rules[k].id == s.events[i].rule;
      forall rule: nat, subject: string
        ensures Faithful(next, rule, subject)
      {
        assert Faithful(s, rule, subject);
        ResolveFaithful(s, event, now, rule, subject);
      }
    }
  }

  lemma NotifyHolds(s: Store, event: nat)
    requires Holds(s)
    ensures Holds(s.(events := Notify(s.events, event)))
  {
    var next := s.(events := Notify(s.events, event));
    forall rule: nat, subject: string
      ensures Faithful(next, rule, subject)
    {
      assert Faithful(s, rule, subject);
      forall id: nat
        ensures HasSpan(next.events, rule, subject, id) <==> HasSpan(s.events, rule, subject, id)
      {
        NotifiedSpans(s.events, event, rule, subject, id);
      }
      SameTold(s, next, rule, subject);
    }
  }

  lemma PurgeHolds(s: Store, cutoff: int)
    requires Holds(s)
    ensures Holds(s.(events := Filter(s.events, Lasting(cutoff))))
  {
    var next := s.(events := Filter(s.events, Lasting(cutoff)));
    FilteredEvents(s, Lasting(cutoff), s.rules);
    assert next == s.(events := Filter(s.events, Lasting(cutoff)), rules := s.rules);
    forall rule: nat, subject: string
      ensures Faithful(next, rule, subject)
    {
      assert Faithful(s, rule, subject);
      forall id: nat
        ensures HasSpan(next.events, rule, subject, id) <==> HasSpan(s.events, rule, subject, id)
      {
        FilteredSpans(s.events, Lasting(cutoff), rule, subject, id);
      }
      SameTold(s, next, rule, subject);
    }
  }

  lemma StepHolds(s: Store, act: Action)
    requires Holds(s)
    ensures Holds(Step(s, act))
  {
    match act
    case SetRule(kind, target, threshold, enabled, now) => SetHolds(s, kind, target, threshold, enabled, now);
    case DeleteRule(kind, target) => DeleteHolds(s, kind, target);
    case Raise(rule, subject, message, value, now) => RaiseHolds(s, rule, subject, message, value, now);
    case Resolve(event, now) => ResolveHolds(s, event, now);
    case MarkNotified(event) => NotifyHolds(s, event);
    case Purge(days, now) => PurgeHolds(s, Cutoff(now, days));
  }

  lemma {:induction false} ExecuteHolds(s: Store, acts: seq<Action>)
    requires Holds(s)
    ensures Holds(Execute(s, acts))
    decreases |acts|
  {
    if acts != [] {
      StepHolds(s, acts[0]);
      ExecuteHolds(Step(s, acts[0]), acts[1..]);
    }
  }

  lemma EmptyHolds()
    ensures Holds(Empty())
  {
    forall rule: nat, subject: string
      ensures Faithful(Empty(), rule, subject)
    {
    }
  }

  // ----------------------------------------------------------------- the laws of a run

  /**
   In every run: a rule's identity names at most one rule; each rule and subject has at most
   one open event; and what was told about them is raise, resolve, raise, resolve, each
   resolve about the event raised before it.
   */
  lemma SpansAlternate(acts: seq<Action>, rule: nat, subject: string)
    ensures var s := Execute(Empty(), acts);
            Rules(s) && OneOpen(s.events) && Alternates(Told(s.told, rule, subject))
  {
    EmptyHolds();
    ExecuteHolds(Empty(), acts);
    assert Faithful(Execute(Empty(), acts), rule, subject);
  }

  /** While a rule exists, its condition is told as holding exactly as long as its event is open. */
  lemma OpenMeansTold(acts: seq<Action>, rule: nat, subject: string, event: nat)
    requires HasRule(Execute(Empty(), acts).rules, rule)
    ensures var s := Execute(Empty(), acts);
            HasSpan(s.events, rule, subject, event) <==> Pending(Told(s.told, rule, subject), event)
  {
    EmptyHolds();
    ExecuteHolds(Empty(), acts);
    assert Faithful(Execute(Empty(), acts), rule, subject);
  }

  /** Purging removes an event exactly when it was resolved before the cutoff, so never an open one. */
  lemma PurgeRemovesExactly(s: Store, days: int, now: int, e: Event)
    requires e in s.events
    ensures var next := Step(s, Purge(days, now));
            && (e in next.events <==> e.IsOpen() || e.resolvedAt.value >= now - 86400 * (if days < 1 then 1 else days))
            && next.rules == s.rules && next.told == s.told
            && forall x :: x in next.events ==> x in s.events
  {
    FilterMembers(s.events, Lasting(Cutoff(now, days)));
  }

  /** Deleting a rule removes it and its events, and nothing else. */
  lemma DeleteRemovesExactly(s: Store, kind: Kind, target: Option<string>)
    requires Holds(s)
    ensures var next := Step(s, DeleteRule(kind, target));
            && (forall r :: r in next.rules <==> r in s.rules && !Identifies(r, kind, target))
            && (forall e :: e in next.events <==> e in s.events && HasRule(next.rules, e.rule))
  {
    FilterMembers(s.rules, Unlike(kind, target));
    FilterMembers(s.events, Under(Filter(s.rules, Unlike(kind, target))));
  }

  // -- what an event tells never changes

  /** The same event, later: only that it was resolved, once, and how often it was told, may have changed. */
  predicate SameStory(e: Event, later: Event) {
    && later.id == e.id && later.rule == e.rule && later.subject == e.subject
    && later.message == e.message && later.value == e.value && later.raisedAt == e.raisedAt
    && (e.resolvedAt.Some? ==> later.resolvedAt == e.resolvedAt)
    && later.notified >= e.notified
  }

  /** Every event with an old id is one of the old events, with the same story. */
  predicate KeepsStories(events: seq<Event>, later: seq<Event>, nextEvent: nat) {
    forall k :: 0 <= k < |later| && later[k].id < nextEvent ==> Continues(events, later[k])
  }

  predicate Continues(events: seq<Event>, later: Event) {
    exists i :: 0 <= i < |events| && SameStory(events[i], later)
  }

  lemma FilterKeepsStories(events: seq<Event>, keep: Event -> bool, nextEvent: nat)
    ensures KeepsStories(events, Filter(events, keep), nextEvent)
  {
    var kept := Filter(events, keep);
    forall k | 0 <= k < |kept|
      ensures Continues(events, kept[k])
    {
      var i := FilterFrom(events, keep, k);
      assert SameStory(events[i], kept[k]);
    }
  }

  lemma StepKeepsStories(s: Store, act: Action)
    ensures KeepsStories(s.events, Step(s, act).events, s.nextEvent) && s.nextEvent <= Step(s, act).nextEvent
  {
    var next := Step(s, act);
    match act
    case DeleteRule(_, _) => FilterKeepsStories(s.events, Under(next.rules), s.nextEvent);
    case Purge(days, now) => FilterKeepsStories(s.events, Lasting(Cutoff(now, days)), s.nextEvent);
    case _ =>
      forall k | 0 <= k < |next.events| && next.events[k].id < s.nextEvent
        ensures Continues(s.events, next.events[k])
      {
        assert k < |s.events| && SameStory(s.events[k], next.events[k]);
      }
  }

  lemma StoriesChain(a: seq<Event>, b: seq<Event>, c: seq<Event>, m: nat, n: nat)
    requires m <= n && KeepsStories(a, b, m) && KeepsStories(b, c, n)
    ensures KeepsStories(a, c, m)
  {
    forall k | 0 <= k < |c| && c[k].id < m
      ensures Continues(a, c[k])
    {
      assert Continues(b, c[k]);
      var j :| 0 <= j < |b| && SameStory(b[j], c[k]);
      assert Continues(a, b[j]);
      var i :| 0 <= i < |a| && SameStory(a[i], b[j]);
      assert SameStory(a[i], c[k]);
    }
  }

  /**
   Over every run, an event that is still there says what it said: its rule, subject, message,
   value and raise time are the same, a resolve is never taken back or moved, and no other
   event ever gets its id.
   */
  lemma {:induction false} EventsKeepTheirStories(s: Store, acts: seq<Action>)
    ensures KeepsStories(s.events, Execute(s, acts).events, s.nextEvent)
    ensures s.nextEvent <= Execute(s, acts).nextEvent
    decreases |acts|
  {
    if acts == [] {
      forall k | 0 <= k < |s.events|
        ensures Continues(s.events, s.events[k])
      {
        assert SameStory(s.events[k], s.events[k]);
      }
    } else {
      var next := Step(s, acts[0]);
      StepKeepsStories(s, acts[0]);
      EventsKeepTheirStories(next, acts[1..]);
      StoriesChain(s.events, next.events, Execute(s, acts).events, s.nextEvent, next.nextEvent);
    }
  }

  lemma ExecuteCons(s: Store, act: Action, acts: seq<Action>)
    ensures Execute(s, [act] + acts) == Execute(Step(s, act), acts)
  {
    assert ([act] + acts)[1..] == acts;
  }

  /**
   The strict alternation is a rule's own, not its identity's: delete a rule while its event
   is open, set it again, and the same condition is told as raised twice with no resolve.
   */
  lemma DeletingForgetsTheSpan(kind: Kind, subject: string)
    ensures var create := SetRule(kind, None, 1.0, true, 0);
            var told := Execute(Empty(), [create] + ([Raise(1, subject, "", None, 0)] + ([DeleteRule(kind, None)]
                          + ([create] + ([Raise(2, subject, "", None, 0)] + []))))).told;
            told == [Transition(true, 1, subject, 1, Some(Identity(kind, ""))),
                     Transition(true, 2, subject, 2, Some(Identity(kind, "")))]
  {
    var create := SetRule(kind, None, 1.0, true, 0);
    var raise1, raise2 := Raise(1, subject, "", None, 0), Raise(2, subject, "", None, 0);
    var delete := DeleteRule(kind, None);
    var one, two := Rule(1, kind, None, 1.0, true, 0, 0), Rule(2, kind, None, 1.0, true, 0, 0);
    var e1, e2 := Event(1, 1, subject, "", None, 0, None, 0), Event(2, 2, subject, "", None, 0, None, 0);
    var who := Some(Identity(kind, ""));
    var t1, t2 := Transition(true, 1, subject, 1, who), Transition(true, 2, subject, 2, who);
    var s1 := Store([one], [], 2, 1, []);
    var s2 := Store([one], [e1], 2, 2, [t1]);
    var s3 := Store([], [], 2, 2, [t1]);
    var s4 := Store([two], [], 3, 2, [t1]);
    FirstRule(Empty(), kind);
    FirstEvent(s1, e1);
    LastRuleGone(s2, kind);
    FirstRule(s3, kind);
    FirstEvent(s4, e2);
    assert Step(Empty(), create) == s1 && Step(s1, raise1) == s2;
    assert Step(s2, delete) == s3 && Step(s3, create) == s4;
    assert Step(s4, raise2).told == [t1, t2];
    ExecuteCons(s4, raise2, []);
    ExecuteCons(s3, create, [raise2] + []);
    ExecuteCons(s2, delete, [create] + ([raise2] + []));
    ExecuteCons(s1, raise1, [delete] + ([create] + ([raise2] + [])));
    ExecuteCons(Empty(), create, [raise1] + ([delete] + ([create] + ([raise2] + []))));
  }

  lemma FirstRule(s: Store, kind: Kind)
    requires s.rules == []
    ensures WithRule(s, kind, None, 1.0, true, 0)
            == s.(rules := [Rule(s.nextRule, kind, None, 1.0, true, 0, 0)], nextRule := s.nextRule + 1)
  {
  }

  lemma FirstEvent(s: Store, e: Event)
    requires s.events == [] && |s.rules| == 1 && s.rules[0].id == e.rule
    requires e == Event(s.nextEvent, e.rule, e.subject, e.message, e.value, e.raisedAt, None, 0)
    ensures Raised(s, e.rule, e.subject, e.message, e.value, e.raisedAt)
            == s.(events := [e], nextEvent := s.nextEvent + 1,
                  told := s.told + [Transition(true, e.rule, e.subject, e.id, IdentityOf(s.rules, e.rule))])
  {
    assert HasRule(s.rules, e.rule);
  }

  lemma LastRuleGone(s: Store, kind: Kind)
    requires |s.rules| == 1 && Identifies(s.rules[0], kind, None) && |s.events| == 1
    ensures WithoutRule(s, kind, None) == s.(rules := [], events := [])
  {
    assert s.rules[1..] == [] && s.events[1..] == [];
    assert Filter(s.rules, Unlike(kind, None)) == [];
    assert !HasRule([], s.events[0].rule);
  }

  // ----------------------------------------------------------------- the store itself

  predicate ByRaised(events: seq<Event>) {
    forall i, j :: 0 <= i < j < |events| ==> events[i].raisedAt <= events[j].raisedAt
  }

  function InsertByRaised(e: Event, sorted: seq<Event>): seq<Event> {
    if sorted == [] || e.raisedAt <= sorted[0].raisedAt then [e] + sorted
    else [sorted[0]] + InsertByRaised(e, sorted[1..])
  }

  function SortByRaised(events: seq<Event>): seq<Event> {
    if events == [] then [] else InsertByRaised(events[0], SortByRaised(events[1..]))
  }

  lemma {:induction false} InsertIs(e: Event, sorted: seq<Event>)
    requires ByRaised(sorted)
    ensures ByRaised(InsertByRaised(e, sorted))
    decreases |sorted|
  {
    InsertMembers(e, sorted);
    if sorted != [] && e.raisedAt > sorted[0].raisedAt {
      InsertIs(e, sorted[1..]);
      InsertMembers(e, sorted[1..]);
      LeastFirst(sorted[0], InsertByRaised(e, sorted[1..]));
    } else {
      LeastFirst(e, sorted);
    }
  }

  lemma LeastFirst(e: Event, rest: seq<Event>)
    requires ByRaised(rest) && forall x :: x in rest ==> e.raisedAt <= x.raisedAt
    ensures ByRaised([e] + rest)
  {
  }

  lemma {:induction false} InsertMembers(e: Event, sorted: seq<Event>)
    ensures multiset(InsertByRaised(e, sorted)) == multiset{e} + multiset(sorted)
    ensures forall x :: x in InsertByRaised(e, sorted) <==> x == e || x in sorted
    decreases |sorted|
  {
    if sorted != [] && e.raisedAt > sorted[0].raisedAt {
      InsertMembers(e, sorted[1..]);
      assert sorted == [sorted[0]] + sorted[1..];
    }
  }

  lemma {:induction false} SortIs(events: seq<Event>)
    ensures ByRaised(SortByRaised(events))
    ensures multiset(SortByRaised(events)) == multiset(events)
    decreases |events|
  {
    if events != [] {
      SortIs(events[1..]);
      InsertIs(events[0], SortByRaised(events[1..]));
      InsertMembers(events[0], SortByRaised(events[1..]));
      assert events == [events[0]] + events[1..];
    }
  }

  class AlertStore {
    var rules: seq<Rule>
    var events: seq<Event>
    var nextRule: nat
    var nextEvent: nat
    ghost var told: seq<Transition>

    ghost function Now(): Store
      reads this
    {
      Store(rules, events, nextRule, nextEvent, told)
    }

    ghost predicate Valid()
      reads this
    {
      Holds(Now())
    }

    constructor ()
      ensures Valid() && Now() == Empty()
    {
      rules, events, nextRule, nextEvent, told := [], [], 1, 1, [];
      new;
      EmptyHolds();
    }

    method SetAlertRule(kind: Kind, target: Option<string>, threshold: real, enabled: bool, now: int) returns (r: Rule)
      requires Valid()
      modifies this
      ensures Valid() && Now() == Step(old(Now()), SetRule(kind, target, threshold, enabled, now))
      ensures r in rules && Identifies(r, kind, target) && r.threshold == threshold && r.enabled == enabled
      ensures r.updatedAt == now && |old(rules)| <= |rules| <= |old(rules)| + 1
      ensures forall k :: 0 <= k < |old(rules)| ==>
                rules[k] == if Identifies(old(rules)[k], kind, target)
                            then old(rules)[k].(threshold := threshold, enabled := enabled, updatedAt := now)
                            else old(rules)[k]
      ensures |rules| > |old(rules)| ==> r.target == target && r.createdAt == now && r == rules[|old(rules)|]
    {
      StepHolds(Now(), SetRule(kind, target, threshold, enabled, now));
      var i := RuleAt(rules, kind, target);
      if i < |rules| {
        rules := rules[i := rules[i].(threshold := threshold, enabled := enabled, updatedAt := now)];
      } else {
        rules := rules + [Rule(nextRule, kind, target, threshold, enabled, now, now)];
        nextRule := nextRule + 1;
      }
      r := rules[i];
    }

    method DeleteAlertRule(kind: Kind, target: Option<string>) returns (removed: bool)
      requires Valid()
      modifies this
      ensures Valid() && Now() == Step(old(Now()), DeleteRule(kind, target))
      ensures removed <==> exists r :: r in old(rules) && Identifies(r, kind, target)
      ensures forall r :: r in rules ==> !Identifies(r, kind, target)
    {
      StepHolds(Now(), DeleteRule(kind, target));
      DeleteRemovesExactly(Now(), kind, target);
      removed := RuleAt(rules, kind, target) < |rules|;
      if removed {
        assert rules[RuleAt(rules, kind, target)] in rules;
      }
      rules := Filter(rules, Unlike(kind, target));
      events := Filter(events, Under(rules));
    }

    method RaiseAlert(rule: nat, subject: string, message: string, value: Option<real>, now: int)
      returns (r: Result<Option<Event>, StoreError>)
      requires Valid()
      modifies this
      ensures Valid() && Now() == Step(old(Now()), Raise(rule, subject, message, value, now))
      ensures r.Err? <==> !HasRule(rules, rule)
      ensures r.Ok? ==> (r.value.Some? <==> forall id: nat :: !old(HasSpan(events, rule, subject, id)))
      ensures r.Ok? && r.value.Some? ==>
                && told == old(told) + [Transition(true, rule, subject, r.value.value.id, IdentityOf(rules, rule))]
                && r.value.value == Event(old(nextEvent), rule, subject, message, value, now, None, 0)
                && events == old(events) + [r.value.value]
      ensures r.Err? || r.value.None? ==> Now() == old(Now())
      ensures r.Ok? ==> exists id: nat :: HasSpan(events, rule, subject, id)
    {
      StepHolds(Now(), Raise(rule, subject, message, value, now));
      var i := SpanAt(events, rule, subject);
      if i < |events| {
        assert HasSpan(events, rule, subject, events[i].id);
        return Ok(None);
      }
      if !HasRule(rules, rule) {
        return Err(NoSuchRule);
      }
      var e := Event(nextEvent, rule, subject, message, value, now, None, 0);
      events, nextEvent := events + [e], nextEvent + 1;
      told := told + [Transition(true, rule, subject, e.id, IdentityOf(rules, rule))];
      assert events[|events| - 1] == e;
      assert HasSpan(events, rule, subject, e.id);
      return Ok(Some(e));
    }

    method ResolveAlert(event: nat, now: int) returns (r: Option<Event>)
      requires Valid()
      modifies this
      ensures Valid() && Now() == Step(old(Now()), Resolve(event, now))
      ensures r.Some? <==> exists e :: e in old(events) && e.id == event && e.IsOpen()
      ensures r.Some? ==> r.value in events && r.value.id == event && r.value.resolvedAt == Some(now)
      ensures r.Some? ==> exists e :: e in old(events) && e.IsOpen() && r.value == e.(resolvedAt := Some(now))
      ensures r.Some? ==>
                told == old(told) + [Transition(false, r.value.rule, r.value.subject, event, IdentityOf(rules, r.value.rule))]
      ensures r.None? ==> Now() == old(Now())
    {
      StepHolds(Now(), Resolve(event, now));
      var i := OpenAt(events, event);
      if i == |events| {
        return None;
      }
      assert events[i] in events;
      var e := events[i].(resolvedAt := Some(now));
      events := events[i := e];
      told := told + [Transition(false, e.rule, e.subject, event, IdentityOf(rules, e.rule))];
      assert events[i] == e;
      return Some(e);
    }

    method MarkAlertNotified(event: nat)
      requires Valid()
      modifies this
      ensures Valid() && Now() == Step(old(Now()), MarkNotified(event))
      ensures |events| == |old(events)|
      ensures forall k :: 0 <= k < |events| ==>
                events[k] == old(events)[k].(notified := old(events)[k].notified + if old(events)[k].id == event then 1 else 0)
    {
      StepHolds(Now(), MarkNotified(event));
      events := Notify(events, event);
    }

    method OpenAlertEvents() returns (open: seq<Event>)
      ensures ByRaised(open)
      ensures multiset(open) == multiset(Filter(events, (e: Event) => e.IsOpen()))
    {
      open := SortByRaised(Filter(events, (e: Event) => e.IsOpen()));
      SortIs(Filter(events, (e: Event) => e.IsOpen()));
    }

    method PurgeAlertEvents(days: int, now: int) returns (removed: nat)
      requires Valid()
      modifies this
      ensures Valid() && Now() == Step(old(Now()), Purge(days, now))
      ensures removed == |old(events)| - |events|
      ensures forall e :: e in old(events) && e.IsOpen() ==> e in events
    {
      StepHolds(Now(), Purge(days, now));
      FilterMembers(events, Lasting(Cutoff(now, days)));
      var kept := Filter(events, Lasting(Cutoff(now, days)));
      removed := |events| - |kept|;
      events := kept;
    }
  }
}
