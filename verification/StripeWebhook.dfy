/** The webhook handler itself, one delivery at a time, as a run of the webhook protocol. */
module StripeWebhooks {
  import opened Basics
  import opened RedisModel
  import opened WebhookProtocol

  datatype Status = Processed | AlreadyProcessed

  datatype WebhookError = WebhookSignatureError | WebhookProcessingError

  /** Handlings do not overlap: each is finished, and a marked one was marked before later ones
      checked.  Each checks at the instant its signature is verified. */
  ghost predicate Serial(w: Web) {
    && (forall h :: h in w.all ==> w.all[h].phase.Skipped? || w.all[h].phase.Failed? || w.all[h].phase.Marked?)
    && (forall h :: h in w.all && WentAhead(w.all[h]) ==> w.all[h].phase.at.time == w.all[h].verified)
    && (forall g, h :: g in w.all && h in w.all && g < h && w.all[g].phase.Marked? && WentAhead(w.all[h])
                       ==> w.all[g].phase.mark.index < w.all[h].phase.at.index)
  }

  /** One at a time, an event takes effect again only seven days after its last mark. */
  lemma EffectsAreAWeekApart(w: Web, g: nat, h: nat)
    requires Inv(w) && Serial(w) && g in w.all && h in w.all && g < h
    requires Succeeded(w.all[g]) && Succeeded(w.all[h]) && w.all[g].delivery.id == w.all[h].delivery.id
    ensures MarkRanOut(w.all[g], w.all[h])
  {
    assert Apart(w.all[g], w.all[h]);
  }

  /** One at a time, a signed request takes effect at most once, however often it is delivered. */
  lemma RequestsTakeEffectOnce(w: Web, g: nat, h: nat)
    requires Inv(w) && Serial(w) && g in w.all && h in w.all
    requires Succeeded(w.all[g]) && Succeeded(w.all[h]) && w.all[g].delivery == w.all[h].delivery
    ensures g == h
  {
    if g != h {
      var a, b := if g < h then g else h, if g < h then h else g;
      EffectsAreAWeekApart(w, a, b);
      assert Placed(w.all[a], w.now, w.index) && Placed(w.all[b], w.now, w.index);
      SameTimestamp(w.all[a].verified, w.all[b].verified, w.all[a].delivery);
      assert false;
    }
  }

  lemma RunSnoc(start: nat, steps: seq<Step>, e: Step)
    ensures Run(start, steps + [e]) == Next(Run(start, steps), e)
  {}

  /** A new handling, finished after all others, keeps the run serial. */
  lemma SerialGrows(start: nat, steps: seq<Step>, w: Web, h: nat, x: Handling, t: Web)
    requires w == Run(start, steps) && Serial(w) && (forall g :: g in w.all ==> g < h) && t.all == w.all[h := x]
    requires x.phase.Skipped? || x.phase.Failed? || x.phase.Marked?
    requires WentAhead(x) ==> w.index < x.phase.at.index && x.phase.at.time == x.verified
    ensures Serial(t)
    ensures (exists g :: g !in w.all && HasEffect(t, g, x.delivery.id)) <==> x.phase.Marked?
  {
    RunKeepsInv(start, steps);
    if x.phase.Marked? {
      assert HasEffect(t, h, x.delivery.id);
    }
    forall g | g in w.all ensures Placed(w.all[g], w.now, w.index) {}
  }

  lemma LookSteps(w: Web, h: nat, d: Delivery)
    requires h !in w.all && Accepts(d, w.now)
    ensures var stamp := Stamp(w.index + 2, w.now);
            Next(Next(w, Verify(h, d)), Check(h)) ==
            Web(w.now, w.index + 2, w.store,
                w.all[h := Handling(d, w.now,
                                    if Live(w.store, MarkKey(d.id), w.now) then Skipped(stamp) else Checked(stamp))])
  {}

  /** A handling whose dispatch is over. */
  function Dispatched(d: Delivery, now: nat, index: nat, duration: nat, succeeds: bool): Handling {
    Handling(d, now,
             if succeeds then Done(Stamp(index, now), Stamp(index + 2, now + duration)) else Failed(Stamp(index, now)))
  }

  lemma DispatchSteps(w: Web, h: nat, d: Delivery, duration: nat, succeeds: bool)
    requires h in w.all && w.all[h].delivery == d && w.all[h].phase == Checked(Stamp(w.index, w.now))
    requires w.all[h].verified == w.now
    ensures Next(Next(w, Step.Wait(duration)), Dispatch(h, succeeds)) ==
            Web(w.now + duration, w.index + 2, w.store, w.all[h := Dispatched(d, w.now, w.index, duration, succeeds)])
  {}

  lemma MarkStep(w: Web, h: nat)
    requires h in w.all && w.all[h].phase.Done?
    ensures var x := w.all[h];
            Next(w, Mark(h)) == Web(w.now, w.index + 1, w.store[Key(x) := Lease("1", w.now + PROCESSED_EVENT_TTL)],
                                    w.all[h := x.(phase := Marked(x.phase.at, x.phase.done,
                                                                  Stamp(w.index + 1, w.now)))])
  {}

  /** The mark is absent exactly when no success for the event was marked in the last seven days. */
  lemma MarkTells(start: nat, steps: seq<Step>, w: Web, id: string)
    requires w == Run(start, steps) && Serial(w)
    ensures Live(w.store, MarkKey(id), w.now) <==> RecentSuccess(w, id, w.now)
  {
    RunKeepsInv(start, steps);
    var k := MarkKey(id);
    if Live(w.store, k, w.now) {
      var h :| h in w.all && Wrote(w.all[h], k, w.store[k].deadline);
      MarksAreApart(id, w.all[h].delivery.id);
      assert HasEffect(w, h, id);
    }
    forall h | h in w.all ensures Kept(w.store, w.all[h]) {}
  }

  ghost predicate HasEffect(w: Web, h: nat, id: string) {
    h in w.all && w.all[h].phase.Marked? && w.all[h].delivery.id == id
  }

  /** Some dispatch for the event succeeded and was marked less than seven days ago. */
  ghost predicate RecentSuccess(w: Web, id: string, now: nat) {
    exists h :: HasEffect(w, h, id) && now < w.all[h].phase.mark.time + 604800 * SECOND
  }

  class StripeWebhookHandler {
    const redis: Redis
    ghost const start: nat
    ghost var steps: seq<Step>
    ghost var web: Web
    ghost var handled: nat

    ghost predicate Synced()
      reads this, redis
    {
      web == Run(start, steps) && web.now == redis.now && web.store == redis.strings
    }

    ghost predicate Valid()
      reads this, redis
    {
      Synced() && Serial(web) && forall h :: h in web.all ==> h < handled
    }

    constructor (now: nat)
      ensures Valid() && web.all == map[] && fresh(redis)
    {
      redis := new Redis(now);
      start, steps, web, handled := now, [], Start(now), 0;
    }

    ghost method Record(e: Step)
      requires web == Run(start, steps)
      modifies this`steps, this`web
      ensures web == Next(old(web), e) == Run(start, steps) && steps == old(steps) + [e]
    {
      RunSnoc(start, steps, e);
      steps, web := steps + [e], Next(web, e);
    }

    method Wait(d: nat)
      requires Valid()
      modifies this`steps, this`web, redis
      ensures Valid() && redis.now == old(redis.now) + d && redis.strings == old(redis.strings)
      ensures web.all == old(web.all)
    {
      Record(Step.Wait(d));
      redis.Advance(d);
    }

    /** _is_already_processed */
    method IsAlreadyProcessed(id: string) returns (processed: bool)
      ensures processed == Live(redis.strings, MarkKey(id), redis.now)
      ensures var key := "webhook:processed:" + id;
              processed <==> key in redis.strings && redis.now < redis.strings[key].deadline
    {
      var mark := redis.Lookup(MarkKey(id));
      processed := mark.Some?;
    }

    /** _mark_as_processed */
    method MarkAsProcessed(id: string)
      modifies redis`strings
      ensures redis.strings ==
                old(redis.strings)["webhook:processed:" + id := Lease("1", redis.now + 604800 * SECOND)]
    {
      redis.SetEx(MarkKey(id), PROCESSED_EVENT_TTL, "1");
    }

    /** handle_webhook, for a dispatch that takes some time and succeeds or raises. */
    method HandleWebhook(d: Delivery, succeeds: bool, duration: nat) returns (r: Result<Status, WebhookError>)
      requires Valid()
      modifies this`steps, this`web, this`handled, redis
      ensures Valid() && old(steps) <= steps
      ensures r == if !d.signed || old(redis.now) / SECOND - d.timestamp > 600
                      || d.timestamp - old(redis.now) / SECOND > 600 then Err(WebhookSignatureError)
                   else if RecentSuccess(old(web), d.id, old(web.now)) then Ok(AlreadyProcessed)
                   else if succeeds then Ok(Processed) else Err(WebhookProcessingError)
      ensures redis.now == if r == Ok(Processed) || r == Err(WebhookProcessingError) then old(redis.now) + duration
                           else old(redis.now)
      ensures redis.strings == if r == Ok(Processed)
                               then old(redis.strings)["webhook:processed:" + d.id :=
                                                         Lease("1", redis.now + 604800 * SECOND)]
                               else old(redis.strings)
      ensures forall h :: h in old(web.all) ==> h in web.all && web.all[h] == old(web.all[h])
      ensures (exists h :: h !in old(web.all) && HasEffect(web, h, d.id)) <==> r == Ok(Processed)
    {
      MarkTells(start, steps, web, d.id);
      if !(d.signed && -WEBHOOK_TOLERANCE_SECONDS <= redis.now / SECOND - d.timestamp <= WEBHOOK_TOLERANCE_SECONDS) {
        return Err(WebhookSignatureError);
      }
      r := HandleAccepted(d, succeeds, duration);
    }

    /** What follows on a signature that is right and in time. */
    method HandleAccepted(d: Delivery, succeeds: bool, duration: nat) returns (r: Result<Status, WebhookError>)
      requires Valid() && Accepts(d, redis.now)
      modifies this`steps, this`web, this`handled, redis
      ensures Valid() && old(steps) <= steps
      ensures r == if old(Live(redis.strings, MarkKey(d.id), redis.now)) then Ok(AlreadyProcessed)
                   else if succeeds then Ok(Processed) else Err(WebhookProcessingError)
      ensures redis.now == if r == Ok(Processed) || r == Err(WebhookProcessingError) then old(redis.now) + duration
                           else old(redis.now)
      ensures redis.strings == if r == Ok(Processed)
                               then old(redis.strings)[MarkKey(d.id) := Lease("1", redis.now + PROCESSED_EVENT_TTL)]
                               else old(redis.strings)
      ensures forall h :: h in old(web.all) ==> h in web.all && web.all[h] == old(web.all[h])
      ensures (exists h :: h !in old(web.all) && HasEffect(web, h, d.id)) <==> r == Ok(Processed)
    {
      ghost var h, w, x := handled, web, Handling(d, web.now, Accepted);
      var processed := Look(d, h);
      handled := handled + 1;
      if processed {
        r, x := Ok(AlreadyProcessed), web.all[h];
      } else {
        r, x := DispatchAndMark(d, succeeds, duration, h, w);
      }
      SerialGrows(start, old(steps), w, h, x, web);
    }

    /** The duplicate check of an accepted delivery. */
    method Look(d: Delivery, ghost h: nat) returns (processed: bool)
      requires Synced() && h !in web.all && Accepts(d, redis.now)
      modifies this`steps, this`web
      ensures Synced() && old(steps) <= steps && processed == Live(redis.strings, MarkKey(d.id), redis.now)
      ensures old(web.index) < web.index
      ensures var at := Stamp(web.index, web.now);
              web.all == old(web.all)[h := Handling(d, web.now, if processed then Skipped(at) else Checked(at))]
    {
      LookSteps(web, h, d);
      Record(Verify(h, d));
      Record(Check(h));
      processed := IsAlreadyProcessed(d.id);
    }

    /** The rest of handle_webhook, once the check has found no mark. */
    method DispatchAndMark(d: Delivery, succeeds: bool, duration: nat, ghost h: nat, ghost w: Web)
      returns (r: Result<Status, WebhookError>, ghost x: Handling)
      requires Synced() && h !in w.all
      requires web.all == w.all[h := Handling(d, web.now, Checked(Stamp(web.index, web.now)))]
      modifies this`steps, this`web, redis
      ensures Synced() && old(steps) <= steps && redis.now == old(redis.now) + duration
      ensures r == if succeeds then Ok(Processed) else Err(WebhookProcessingError)
      ensures redis.strings == if !succeeds then old(redis.strings)
                               else old(redis.strings)[MarkKey(d.id) := Lease("1", redis.now + PROCESSED_EVENT_TTL)]
      ensures web.all == w.all[h := x] && x.delivery == d && x.verified == old(web.now)
      ensures (if succeeds then x.phase.Marked? else x.phase.Failed?)
      ensures x.phase.at == Stamp(old(web.index), old(web.now))
    {
      DispatchSteps(web, h, d, duration, succeeds);
      Record(Step.Wait(duration));
      redis.Advance(duration);
      Record(Dispatch(h, succeeds));
      if !succeeds {
        return Err(WebhookProcessingError), web.all[h];
      }
      MarkDone(d, h);
      return Ok(Processed), web.all[h];
    }

    method MarkDone(d: Delivery, ghost h: nat)
      requires Synced() && h in web.all && web.all[h].phase.Done? && web.all[h].delivery == d
      modifies this`steps, this`web, redis`strings
      ensures Synced() && old(steps) <= steps
      ensures redis.strings == old(redis.strings)[MarkKey(d.id) := Lease("1", redis.now + PROCESSED_EVENT_TTL)]
      ensures h in web.all && web.all == old(web.all)[h := web.all[h]] && web.all[h].phase.Marked?
      ensures web.all[h] == old(web.all[h]).(phase := web.all[h].phase)
      ensures web.all[h].phase.at == old(web.all[h].phase.at)
    {
      MarkAsProcessed(d.id);
      MarkStep(web, h);
      Record(Mark(h));
    }
  }
}
