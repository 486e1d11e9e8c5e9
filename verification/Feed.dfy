/** event/feed.go: subscriptions, removals and Send over one shared case list, in every
    interleaving. The receive case that the source keeps at index 0 is left out, so
    positions here are one lower. */
module Feed {

  type Chan = nat

  // ----- caseList -----

  /** find, as the loop runs it: the first index holding the channel, or -1. */
  method FindCase(cs: seq<Chan>, ch: Chan) returns (index: int)
    ensures index == Find(cs, ch)
  {
    for i := 0 to |cs|
      invariant Find(cs, ch) == if Find(cs[i..], ch) < 0 then -1 else i + Find(cs[i..], ch)
    {
      assert cs[i..][1..] == cs[i + 1..];
      if cs[i] == ch {
        return i;
      }
    }
    assert cs[|cs|..] == [];
    return -1;
  }

  function Find(cs: seq<Chan>, ch: Chan): (r: int)
    ensures -1 <= r < |cs| && (r >= 0 ==> cs[r] == ch && ch !in cs[..r])
    ensures r >= 0 <==> ch in cs
  {
    if cs == [] then -1
    else if cs[0] == ch then 0
    else var r := Find(cs[1..], ch); if r < 0 then -1 else r + 1
  }

  /** delete shifts the tail down by one. */
  function Delete(cs: seq<Chan>, index: nat): (r: seq<Chan>)
    requires index < |cs|
    ensures |r| == |cs| - 1 && multiset(r) == multiset(cs) - multiset{cs[index]}
  {
    assert cs == cs[..index] + [cs[index]] + cs[index + 1..];
    cs[..index] + cs[index + 1..]
  }

  /** deactivate swaps a case with the last of the first `n`, which then leave it out. */
  function Deactivate(cs: seq<Chan>, n: nat, index: nat): (r: seq<Chan>)
    requires index < n <= |cs|
    ensures |r| == |cs|
  {
    cs[index := cs[n - 1]][n - 1 := cs[index]]
  }

  lemma Deactivated(cs: seq<Chan>, n: nat, index: nat)
    requires index < n <= |cs|
    ensures var r := Deactivate(cs, n, index);
            && multiset(r[..n - 1]) == multiset(cs[..n]) - multiset{cs[index]}
            && multiset(r[n - 1..]) == multiset(cs[n..]) + multiset{cs[index]}
  {
    var r := Deactivate(cs, n, index);
    assert multiset(r[n - 1..]) == multiset(cs[n..]) + multiset{cs[index]} by {
      assert r[n - 1..] == [cs[index]] + cs[n..];
    }
    Swapped(cs[..n], index);
    assert r[..n - 1] == Deactivate(cs[..n], n, index)[..n - 1];
  }

  lemma Swapped(cs: seq<Chan>, index: nat)
    requires index < |cs|
    ensures multiset(Deactivate(cs, |cs|, index)[..|cs| - 1]) == multiset(cs) - multiset{cs[index]}
  {
    var n, x := |cs|, cs[index];
    var r, front := Deactivate(cs, n, index), cs[..index];
    if index == n - 1 {
      assert r[..n - 1] == front && cs == front + [x];
    } else {
      var mid, y := cs[index + 1..n - 1], cs[n - 1];
      assert r[..n - 1] == (front + [y]) + mid;
      assert cs == ((front + [x]) + mid) + [y];
      assert multiset(cs) == multiset(front) + multiset{x} + multiset(mid) + multiset{y};
    }
  }

  lemma DeletedSplit(cs: seq<Chan>, n: nat, index: nat)
    requires index < |cs| && n <= |cs|
    ensures var r := Delete(cs, index);
            if index < n then
              multiset(r[..n - 1]) == multiset(cs[..n]) - multiset{cs[index]} && multiset(r[n - 1..]) == multiset(cs[n..])
            else
              multiset(r[..n]) == multiset(cs[..n]) && multiset(r[n..]) == multiset(cs[n..]) - multiset{cs[index]}
  {
    var r := Delete(cs, index);
    if index < n {
      assert r[..n - 1] == Delete(cs[..n], index);
      assert r[n - 1..] == cs[n..];
    } else {
      assert r[..n] == cs[..n];
      assert r[n..] == Delete(cs[n..], index - n);
    }
  }

  /** delete in the shared backing array: the tail moves down over the removed case. */
  method DeleteInPlace(a: array<Chan>, n: nat, index: nat)
    requires index < n <= a.Length
    modifies a
    ensures a[..n - 1] == Delete(old(a[..n]), index)
    ensures a[n - 1..] == old(a[n - 1..])
  {
    for i := index to n - 1
      invariant forall j :: 0 <= j < a.Length && (j < index || i <= j) ==> a[j] == old(a[j])
      invariant forall j :: index <= j < i ==> a[j] == old(a[j + 1])
    {
      a[i] := a[i + 1];
    }
    ghost var was := old(a[..n]);
    assert a[..n - 1] == was[..index] + was[index + 1..];
  }

  /** deactivate in the shared backing array. */
  method DeactivateInPlace(a: array<Chan>, n: nat, index: nat)
    requires index < n <= a.Length
    modifies a
    ensures a[..] == Deactivate(old(a[..]), n, index)
  {
    a[index], a[n - 1] := a[n - 1], a[index];
  }

  // ----- The feed and a Send in progress -----

  /** `active` is the length of `cases`, the unsent prefix of sendCases; `scan` is the
      position of the non-blocking pass. The rest is history: the cases the Send began
      with, and what became of them. */
  datatype Sending = Sending(active: nat, scan: nat, nsent: nat,
                             began: multiset<Chan>, delivered: multiset<Chan>,
                             removedUnsent: multiset<Chan>, removedSent: multiset<Chan>)

  datatype Progress = Idle | Busy(send: Sending)

  /** `live` holds the subscriptions not yet unsubscribed, and `removing` those whose
      Unsubscribe has passed the inbox and waits for the case list. */
  datatype State = State(sendCases: seq<Chan>, inbox: seq<Chan>, progress: Progress,
                         live: multiset<Chan>, removing: multiset<Chan>)

  datatype Step =
    | Subscribe(ch: Chan)
    | Unsubscribe(ch: Chan)      // remove, up to leaving the inbox lock
    | RemoveIdle(ch: Chan)       // remove got the send lock
    | BeginSend
    | TrySend(ok: bool)          // one position of the non-blocking pass
    | SelectSend(index: nat)     // Select chose a channel
    | SelectRemove(ch: Chan)     // Select chose the removal channel
    | EndSend

  predicate Can(s: State, step: Step) {
    match step
    case Subscribe(_) => true
    case Unsubscribe(ch) => ch in s.live
    case RemoveIdle(ch) => ch in s.removing && s.progress.Idle?
    case BeginSend => s.progress.Idle?
    case TrySend(_) => s.progress.Busy? && s.progress.send.scan < s.progress.send.active
    case SelectSend(i) => Selecting(s) && i < s.progress.send.active
    case SelectRemove(ch) => Selecting(s) && ch in s.removing
    case EndSend => s.progress.Busy? && s.progress.send.scan >= s.progress.send.active && s.progress.send.active == 0
  }

  predicate Selecting(s: State) {
    s.progress.Busy? && s.progress.send.scan >= s.progress.send.active && s.progress.send.active > 0
  }

  /** The list operations of a step stay in range. */
  predicate Safe(s: State, step: Step) {
    match step
    case RemoveIdle(ch) => Find(s.sendCases, ch) >= 0
    case SelectRemove(ch) => Find(s.sendCases, ch) >= 0
    case TrySend(_) => s.progress.Busy? ==> s.progress.send.active <= |s.sendCases|
    case SelectSend(_) => s.progress.Busy? ==> s.progress.send.active <= |s.sendCases|
    case _ => true
  }

  /** A case is sent to: it moves out of `cases`. */
  function Sent(s: State, i: nat, scan: nat): State
    requires s.progress.Busy? && i < s.progress.send.active <= |s.sendCases|
  {
    var p := s.progress.send;
    s.(sendCases := Deactivate(s.sendCases, p.active, i),
       progress := Busy(p.(active := p.active - 1, scan := scan, nsent := p.nsent + 1,
                           delivered := p.delivered + multiset{s.sendCases[i]})))
  }

  function Apply(s: State, step: Step): State
    requires Can(s, step) && Safe(s, step)
  {
    match step
    case Subscribe(ch) => s.(inbox := s.inbox + [ch], live := s.live + multiset{ch})
    case Unsubscribe(ch) =>
      var i := Find(s.inbox, ch);
      if i >= 0 then s.(inbox := Delete(s.inbox, i), live := s.live - multiset{ch})
      else s.(live := s.live - multiset{ch}, removing := s.removing + multiset{ch})
    case RemoveIdle(ch) =>
      s.(sendCases := Delete(s.sendCases, Find(s.sendCases, ch)), removing := s.removing - multiset{ch})
    case BeginSend =>
      var all := s.sendCases + s.inbox;
      s.(sendCases := all, inbox := [],
         progress := Busy(Sending(|all|, 0, 0, multiset(all), multiset{}, multiset{}, multiset{})))
    case TrySend(ok) =>
      var p := s.progress.send;
      if ok then Sent(s, p.scan, p.scan) else s.(progress := Busy(p.(scan := p.scan + 1)))
    case SelectSend(i) => Sent(s, i, 0)
    case SelectRemove(ch) =>
      var i, p := Find(s.sendCases, ch), s.progress.send;
      s.(sendCases := Delete(s.sendCases, i), removing := s.removing - multiset{ch},
         progress := Busy(if i < p.active
                          then p.(active := p.active - 1, scan := 0, removedUnsent := p.removedUnsent + multiset{ch})
                          else p.(scan := 0, removedSent := p.removedSent + multiset{ch})))
    case EndSend => s.(progress := Idle)
  }

  const EMPTY_FEED := State([], [], Idle, multiset{}, multiset{})

  // ----- The invariant -----

  /** Every subscription, live or on its way out, is in exactly one of the two lists, and
      the ones on their way out are in the case list. */
  ghost predicate ListsOk(s: State) {
    && multiset(s.sendCases) + multiset(s.inbox) == s.live + s.removing
    && s.removing <= multiset(s.sendCases)
  }

  /** The unsent cases are the prefix; every case the Send began with is still unsent, was
      delivered to once, or was removed before that. */
  ghost predicate SendOk(s: State) {
    s.progress.Busy? ==>
      && s.progress.send.active <= |s.sendCases|
      && Balanced(s.progress.send, multiset(s.sendCases[..s.progress.send.active]),
                  multiset(s.sendCases[s.progress.send.active..]))
  }

  ghost predicate Balanced(p: Sending, unsent: multiset<Chan>, sent: multiset<Chan>) {
    && p.delivered == sent + p.removedSent
    && p.began == unsent + p.delivered + p.removedUnsent
    && p.nsent == |p.delivered|
  }

  ghost predicate Inv(s: State) { ListsOk(s) && SendOk(s) }

  lemma SplitCases(cs: seq<Chan>, n: nat)
    requires n <= |cs|
    ensures multiset(cs) == multiset(cs[..n]) + multiset(cs[n..])
  {
    assert cs == cs[..n] + cs[n..];
  }

  /** A waiting removal always finds its case. */
  lemma StepsAreSafe(s: State, step: Step)
    requires Inv(s) && Can(s, step)
    ensures Safe(s, step)
  {
    match step
    case RemoveIdle(ch) => assert ch in multiset(s.sendCases);
    case SelectRemove(ch) => assert ch in multiset(s.sendCases);
    case _ =>
  }

  lemma BalancedSent(p: Sending, q: Sending, a: multiset<Chan>, b: multiset<Chan>, x: Chan)
    requires Balanced(p, a, b) && x in a
    requires q == p.(active := q.active, scan := q.scan, nsent := p.nsent + 1, delivered := p.delivered + multiset{x})
    ensures Balanced(q, a - multiset{x}, b + multiset{x})
    ensures (a - multiset{x}) + (b + multiset{x}) == a + b
  {
  }

  lemma SentKeeps(s: State, i: nat, scan: nat)
    requires Inv(s) && s.progress.Busy? && i < s.progress.send.active
    ensures Inv(Sent(s, i, scan))
  {
    var p, cs := s.progress.send, s.sendCases;
    var s' := Sent(s, i, scan);
    Deactivated(cs, p.active, i);
    assert cs[..p.active][i] == cs[i];
    BalancedSent(p, s'.progress.send, multiset(cs[..p.active]), multiset(cs[p.active..]), cs[i]);
    assert multiset(s'.sendCases) == multiset(cs) by {
      SplitCases(cs, p.active);
      SplitCases(s'.sendCases, p.active - 1);
    }
  }

  lemma UnsubscribeKeeps(s: State, ch: Chan)
    requires Inv(s) && Can(s, Unsubscribe(ch))
    ensures Inv(Apply(s, Unsubscribe(ch)))
  {
    var s' := Apply(s, Unsubscribe(ch));
    if Find(s.inbox, ch) < 0 {
      assert multiset(s.inbox)[ch] == 0;
      assert (multiset(s.sendCases) + multiset(s.inbox))[ch] == (s.live + s.removing)[ch];
      assert s'.live + s'.removing == s.live + s.removing;
    } else {
      Less(multiset(s.sendCases), multiset(s.inbox), s.live, s.removing, ch);
    }
  }

  lemma Less(a: multiset<Chan>, b: multiset<Chan>, c: multiset<Chan>, d: multiset<Chan>, ch: Chan)
    requires a + b == c + d && ch in b && ch in c
    ensures a + (b - multiset{ch}) == (c - multiset{ch}) + d
  {
    assert a + (b - multiset{ch}) == (a + b) - multiset{ch};
  }

  lemma RemovalKeepsLists(s: State, ch: Chan)
    requires ListsOk(s) && ch in s.removing && Find(s.sendCases, ch) >= 0
    ensures ListsOk(s.(sendCases := Delete(s.sendCases, Find(s.sendCases, ch)), removing := s.removing - multiset{ch}))
  {
    var a, b := multiset(s.sendCases), multiset(s.inbox);
    assert b + a == a + b && s.removing + s.live == s.live + s.removing;
    Less(b, a, s.removing, s.live, ch);
    var a', r' := a - multiset{ch}, s.removing - multiset{ch};
    assert r' <= a';
    assert a' + b == b + a' && r' + s.live == s.live + r';
  }

  lemma BalancedUnsentRemoved(p: Sending, q: Sending, a: multiset<Chan>, b: multiset<Chan>, x: Chan)
    requires Balanced(p, a, b) && x in a
    requires q == p.(active := q.active, scan := q.scan, removedUnsent := p.removedUnsent + multiset{x})
    ensures Balanced(q, a - multiset{x}, b)
  {
  }

  lemma BalancedSentRemoved(p: Sending, q: Sending, a: multiset<Chan>, b: multiset<Chan>, x: Chan)
    requires Balanced(p, a, b) && x in b
    requires q == p.(scan := q.scan, removedSent := p.removedSent + multiset{x})
    ensures Balanced(q, a, b - multiset{x})
  {
  }

  lemma RemoveUnsent(s: State, ch: Chan)
    requires SendOk(s) && Can(s, SelectRemove(ch)) && Safe(s, SelectRemove(ch))
    requires Find(s.sendCases, ch) < s.progress.send.active
    ensures SendOk(Apply(s, SelectRemove(ch)))
  {
    var i, p, cs := Find(s.sendCases, ch), s.progress.send, s.sendCases;
    var s' := Apply(s, SelectRemove(ch));
    DeletedSplit(cs, p.active, i);
    assert cs[..p.active][i] == ch;
    BalancedUnsentRemoved(p, s'.progress.send, multiset(cs[..p.active]), multiset(cs[p.active..]), ch);
  }

  lemma RemoveSent(s: State, ch: Chan)
    requires SendOk(s) && Can(s, SelectRemove(ch)) && Safe(s, SelectRemove(ch))
    requires Find(s.sendCases, ch) >= s.progress.send.active
    ensures SendOk(Apply(s, SelectRemove(ch)))
  {
    var i, p, cs := Find(s.sendCases, ch), s.progress.send, s.sendCases;
    var s' := Apply(s, SelectRemove(ch));
    DeletedSplit(cs, p.active, i);
    assert cs[p.active..][i - p.active] == ch;
    BalancedSentRemoved(p, s'.progress.send, multiset(cs[..p.active]), multiset(cs[p.active..]), ch);
  }

  lemma RemoveKeeps(s: State, ch: Chan)
    requires Inv(s) && Can(s, SelectRemove(ch)) && Safe(s, SelectRemove(ch))
    ensures Inv(Apply(s, SelectRemove(ch)))
  {
    RemovalKeepsLists(s, ch);
    assert ListsOk(Apply(s, SelectRemove(ch)));
    if Find(s.sendCases, ch) < s.progress.send.active { RemoveUnsent(s, ch); } else { RemoveSent(s, ch); }
  }

  lemma Grown(a: multiset<Chan>, b: multiset<Chan>, c: multiset<Chan>, d: multiset<Chan>, ch: Chan)
    requires a + b == c + d
    ensures a + (b + multiset{ch}) == (c + multiset{ch}) + d
  {
    assert a + (b + multiset{ch}) == (a + b) + multiset{ch};
  }

  lemma BeginKeeps(s: State)
    requires Inv(s) && Can(s, BeginSend)
    ensures Inv(Apply(s, BeginSend))
  {
    var all := s.sendCases + s.inbox;
    assert all[..|all|] == all && all[|all|..] == [];
    assert multiset(all) == multiset(s.sendCases) + multiset(s.inbox);
  }

  lemma StepKeeps(s: State, step: Step)
    requires Inv(s) && Can(s, step)
    ensures Safe(s, step) && Inv(Apply(s, step))
  {
    StepsAreSafe(s, step);
    match step
    case TrySend(ok) => if ok { SentKeeps(s, s.progress.send.scan, s.progress.send.scan); }
    case SelectSend(i) => SentKeeps(s, i, 0);
    case SelectRemove(ch) => RemoveKeeps(s, ch);
    case Unsubscribe(ch) => UnsubscribeKeeps(s, ch);
    case Subscribe(ch) => Grown(multiset(s.sendCases), multiset(s.inbox), s.live, s.removing, ch);
    case BeginSend => BeginKeeps(s);
    case RemoveIdle(ch) => RemovalKeepsLists(s, ch);
    case _ =>
  }

  // ----- Runs -----

  ghost predicate Runs(s: State, steps: seq<Step>)
    decreases |steps|
  {
    steps == [] || (Can(s, steps[0]) && Safe(s, steps[0]) && Runs(Apply(s, steps[0]), steps[1..]))
  }

  ghost function End(s: State, steps: seq<Step>): State
    requires Runs(s, steps)
    decreases |steps|
  {
    if steps == [] then s else End(Apply(s, steps[0]), steps[1..])
  }

  lemma {:induction false} RunKeeps(s: State, steps: seq<Step>)
    requires Inv(s) && Runs(s, steps)
    ensures Inv(End(s, steps))
    decreases |steps|
  {
    if steps != [] {
      StepKeeps(s, steps[0]);
      RunKeeps(Apply(s, steps[0]), steps[1..]);
    }
  }

  lemma {:induction false} RunSplit(s: State, steps: seq<Step>, i: nat)
    requires Runs(s, steps) && i <= |steps|
    ensures Runs(s, steps[..i]) && Runs(End(s, steps[..i]), steps[i..])
    ensures End(End(s, steps[..i]), steps[i..]) == End(s, steps)
    decreases |steps|
  {
    if i > 0 {
      assert steps[..i][1..] == steps[1..][..i - 1] && steps[1..][i - 1..] == steps[i..];
      RunSplit(Apply(s, steps[0]), steps[1..], i - 1);
    } else {
      assert steps[0..] == steps;
    }
  }

  /** How often a step is taken. */
  function Times(steps: seq<Step>, step: Step): nat { multiset(steps)[step] }

  lemma TimesFirst(steps: seq<Step>, step: Step)
    requires steps != []
    ensures Times(steps, step) == Times(steps[1..], step) + if steps[0] == step then 1 else 0
  {
    assert steps == [steps[0]] + steps[1..];
  }

  lemma TimesSplit(steps: seq<Step>, i: nat, step: Step)
    requires i <= |steps|
    ensures Times(steps, step) == Times(steps[..i], step) + Times(steps[i..], step)
  {
    assert steps == steps[..i] + steps[i..];
  }

  lemma SumsAt(a: multiset<Chan>, b: multiset<Chan>, c: multiset<Chan>, d: multiset<Chan>, ch: Chan)
    requires a + b == c + d
    ensures a[ch] + b[ch] == c[ch] + d[ch]
  {
    assert (a + b)[ch] == (c + d)[ch];
  }

  lemma LiveStep(s: State, step: Step, ch: Chan)
    requires Can(s, step) && Safe(s, step)
    ensures Apply(s, step).live[ch] ==
              s.live[ch] + (if step == Subscribe(ch) then 1 else 0) - if step == Unsubscribe(ch) then 1 else 0
    ensures Apply(s, step).removing[ch] <= s.removing[ch] + if step == Unsubscribe(ch) then 1 else 0
  {
  }

  /** The subscriptions that are live are those made and not given up. */
  lemma {:induction false} LiveIs(s: State, steps: seq<Step>, ch: Chan)
    requires Runs(s, steps)
    ensures End(s, steps).live[ch] == s.live[ch] + Times(steps, Subscribe(ch)) - Times(steps, Unsubscribe(ch))
    ensures End(s, steps).removing[ch] <= s.removing[ch] + Times(steps, Unsubscribe(ch))
    decreases |steps|
  {
    if steps != [] {
      LiveStep(s, steps[0], ch);
      LiveIs(Apply(s, steps[0]), steps[1..], ch);
      TimesFirst(steps, Subscribe(ch));
      TimesFirst(steps, Unsubscribe(ch));
    }
  }

  /** The channel that the value is sent to in a step. */
  function Delivery(s: State, step: Step): multiset<Chan>
    requires Can(s, step) && Safe(s, step)
  {
    match step
    case TrySend(ok) => if ok then multiset{s.sendCases[s.progress.send.scan]} else multiset{}
    case SelectSend(i) => multiset{s.sendCases[i]}
    case _ => multiset{}
  }

  /** The channels that the value is sent to in a run. */
  ghost function Deliveries(s: State, steps: seq<Step>): multiset<Chan>
    requires Runs(s, steps)
    decreases |steps|
  {
    if steps == [] then multiset{} else Delivery(s, steps[0]) + Deliveries(Apply(s, steps[0]), steps[1..])
  }

  /** No other Send begins. */
  ghost predicate NoBegin(steps: seq<Step>) { forall j :: 0 <= j < |steps| ==> !steps[j].BeginSend? }

  lemma {:induction false} StaysIdle(s: State, steps: seq<Step>)
    requires Runs(s, steps) && s.progress.Idle? && NoBegin(steps)
    ensures End(s, steps).progress.Idle?
    decreases |steps|
  {
    if steps != [] { StaysIdle(Apply(s, steps[0]), steps[1..]); }
  }

  /** A Send has gone on: these deliveries were made, and of a channel's subscriptions no more were
      removed than were waiting for it or were given up in `n` calls. */
  ghost predicate WentOn(s: State, t: State, delivered: multiset<Chan>, ch: Chan, n: nat) {
    && s.progress.Busy? && t.progress.Busy?
    && var p, q := s.progress.send, t.progress.send;
       && q.began == p.began && q.delivered == p.delivered + delivered
       && q.removedUnsent[ch] + t.removing[ch] <= p.removedUnsent[ch] + s.removing[ch] + n
  }

  lemma WentOnJoin(s: State, t: State, u: State, d: multiset<Chan>, e: multiset<Chan>, ch: Chan, m: nat, n: nat)
    requires WentOn(s, t, d, ch, m) && WentOn(t, u, e, ch, n)
    ensures WentOn(s, u, d + e, ch, m + n)
  {
  }

  lemma WentOnStep(s: State, step: Step, ch: Chan)
    requires s.progress.Busy? && Can(s, step) && Safe(s, step) && !step.EndSend?
    ensures WentOn(s, Apply(s, step), Delivery(s, step), ch, if step == Unsubscribe(ch) then 1 else 0)
  {
  }

  /** While a Send is under way, its history is what the steps did. */
  lemma {:induction false} SendHistory(s: State, steps: seq<Step>, ch: Chan)
    requires s.progress.Busy? && Runs(s, steps) && NoBegin(steps) && End(s, steps).progress.Busy?
    ensures WentOn(s, End(s, steps), Deliveries(s, steps), ch, Times(steps, Unsubscribe(ch)))
    decreases |steps|
  {
    if steps != [] {
      var step, rest, t := steps[0], steps[1..], Apply(s, steps[0]);
      assert !step.EndSend? by {
        if step.EndSend? { StaysIdle(t, rest); }
      }
      TimesFirst(steps, Unsubscribe(ch));
      WentOnStep(s, step, ch);
      SendHistory(t, rest, ch);
      WentOnJoin(s, t, End(t, rest), Delivery(s, step), Deliveries(t, rest), ch,
                 if step == Unsubscribe(ch) then 1 else 0, Times(rest, Unsubscribe(ch)));
    }
  }

  lemma FromBegin(s: State, steps: seq<Step>, ch: Chan)
    requires Inv(s) && Runs(s, steps) && steps != [] && steps[0].BeginSend? && NoBegin(steps[1..])
    requires Can(End(s, steps), EndSend)
    ensures var p, delivered := End(s, steps).progress.send, Deliveries(s, steps);
            && delivered + p.removedUnsent == s.live + s.removing && p.nsent == |delivered|
            && p.removedUnsent[ch] <= s.removing[ch] + Times(steps, Unsubscribe(ch))
  {
    var t, rest := Apply(s, BeginSend), steps[1..];
    BeginKeeps(s);
    SendHistory(t, rest, ch);
    TimesFirst(steps, Unsubscribe(ch));
    RunKeeps(t, rest);
    assert multiset(s.sendCases + s.inbox) == s.live + s.removing;
    assert End(s, steps).sendCases[..0] == [];
  }

  /** Step `i` begins the last Send of the run. */
  ghost predicate LastBegin(steps: seq<Step>, i: nat) {
    i < |steps| && steps[i].BeginSend? && NoBegin(steps[i + 1..])
  }

  /** At the end of a Send that step `i` began, in every run: every subscription that there was,
      or that was waiting for its removal, was delivered to exactly once or removed before that,
      no other was delivered to, and the count it returns is the number of deliveries. Only what
      was waiting for removal or has been unsubscribed since was removed. */
  lemma SendDeliversOnce(steps: seq<Step>, i: nat, ch: Chan)
    requires Runs(EMPTY_FEED, steps) && LastBegin(steps, i) && Can(End(EMPTY_FEED, steps), EndSend)
    ensures Runs(EMPTY_FEED, steps[..i]) && Runs(End(EMPTY_FEED, steps[..i]), steps[i..])
    ensures var s, p := End(EMPTY_FEED, steps[..i]), End(EMPTY_FEED, steps).progress.send;
            var delivered := Deliveries(s, steps[i..]);
            && delivered + p.removedUnsent == s.live + s.removing && p.nsent == |delivered|
            && p.removedUnsent[ch] <= s.removing[ch] + Times(steps[i..], Unsubscribe(ch))
  {
    RunSplit(EMPTY_FEED, steps, i);
    RunKeeps(EMPTY_FEED, steps[..i]);
    FromBegin(End(EMPTY_FEED, steps[..i]), steps[i..], ch);
  }

  /** So a channel gets the value at most once for each of its subscriptions before the Send began,
      and once for each of them that nobody gave up: the value reaches every subscriber. */
  lemma SubscribersServed(steps: seq<Step>, i: nat, ch: Chan)
    requires Runs(EMPTY_FEED, steps) && LastBegin(steps, i) && Can(End(EMPTY_FEED, steps), EndSend)
    ensures Runs(EMPTY_FEED, steps[..i]) && Runs(End(EMPTY_FEED, steps[..i]), steps[i..])
    ensures var n := Deliveries(End(EMPTY_FEED, steps[..i]), steps[i..])[ch];
            Times(steps[..i], Subscribe(ch)) - Times(steps, Unsubscribe(ch)) <= n <= Times(steps[..i], Subscribe(ch))
  {
    SendDeliversOnce(steps, i, ch);
    LiveIs(EMPTY_FEED, steps[..i], ch);
    TimesSplit(steps, i, Unsubscribe(ch));
    var s, p := End(EMPTY_FEED, steps[..i]), End(EMPTY_FEED, steps).progress.send;
    SumsAt(Deliveries(s, steps[i..]), p.removedUnsent, s.live, s.removing, ch);
  }

  /** A Send never stands still: it tries the next channel, waits in Select or ends, and each of
      its own steps leaves less to do. */
  lemma SendEnds(s: State, step: Step)
    requires Inv(s) && s.progress.Busy?
    ensures Can(s, TrySend(false)) || Selecting(s) || Can(s, EndSend)
    ensures Can(s, EndSend) ==> Can(Apply(s, EndSend), BeginSend)
    ensures Can(s, step) && (step.TrySend? || step.SelectSend? || step.SelectRemove?) ==>
              && Safe(s, step) && Apply(s, step).progress.Busy?
              && var (p, q) := (s.progress.send, Apply(s, step).progress.send);
                 || q.active + |Apply(s, step).removing| < p.active + |s.removing|
                 || (q.active + |Apply(s, step).removing| == p.active + |s.removing| && q.active - q.scan < p.active - p.scan)
  {
    if Can(s, step) { StepsAreSafe(s, step); }
  }

  /** In every run the next step never indexes out of range, and a channel with a single
      live subscription that nobody is removing is in exactly one of the two lists. */
  lemma OneList(steps: seq<Step>, ch: Chan, step: Step)
    requires Runs(EMPTY_FEED, steps)
    ensures var s := End(EMPTY_FEED, steps);
            && (Can(s, step) ==> Safe(s, step))
            && multiset(s.sendCases)[ch] + multiset(s.inbox)[ch] == s.live[ch] + s.removing[ch]
            && (s.live[ch] == 1 && s.removing[ch] == 0 ==> (ch in s.sendCases <==> ch !in s.inbox))
  {
    RunKeeps(EMPTY_FEED, steps);
    var s := End(EMPTY_FEED, steps);
    if Can(s, step) { StepsAreSafe(s, step); }
    assert (multiset(s.sendCases) + multiset(s.inbox))[ch] == (s.live + s.removing)[ch];
    assert ch in s.sendCases <==> multiset(s.sendCases)[ch] > 0;
    assert ch in s.inbox <==> multiset(s.inbox)[ch] > 0;
  }
}
