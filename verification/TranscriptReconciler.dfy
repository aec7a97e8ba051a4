/** The publisher of caption revisions, and why the stream it emits is one the replica can converge on. */
module TranscriptReconciler {
  import opened Outcome
  import opened CaptionReplica
  import opened Whitespace

  datatype AsrEvent = AsrEvent(
    result: bool,              // partial or final result, as opposed to any other provider event
    final: bool,
    segment: string,
    text: Option<string>,
    eventId: string,
    detail: Detail
  )

  datatype Detail = Detail(begin: Option<nat>, end: Option<nat>, confidence: Option<real>)

  datatype Body = Body(text: string, eventId: string, detail: Detail)

  datatype Fingerprint = Fingerprint(final: bool, segment: string, text: string, detail: Detail)

  /** The emitted revisions are disciplined, numbered up to the last one, and their finals are known. */
  ghost predicate Accounted(E: set<Revision<Body>>, last: map<string, nat>, finals: set<string>) {
    && Disciplined(E)
    && (forall r | r in E :: r.segment in last && 0 < r.number <= last[r.segment])
    && (forall r | r in E && r.status.Final? :: r.segment in finals)
  }

  lemma {:induction false} DraftsBelow(E: set<Revision<Body>>, last: map<string, nat>, finals: set<string>, r: Revision<Body>)
    requires Accounted(E, last, finals) && r.segment !in finals
    requires r.number == (if r.segment in last then last[r.segment] else 0) + 1
    ensures forall x | x in E && x.segment == r.segment :: x.number < r.number && x.status.Draft?
  {
  }

  /** The next revision of an open segment may follow. */
  lemma {:induction false} ExtendAccounted(E: set<Revision<Body>>, last: map<string, nat>, finals: set<string>, r: Revision<Body>)
    requires Accounted(E, last, finals) && r.segment !in finals
    requires r.number == (if r.segment in last then last[r.segment] else 0) + 1
    ensures Accounted(E + {r}, last[r.segment := r.number], if r.status.Final? then finals + {r.segment} else finals)
  {
    DraftsBelow(E, last, finals, r);
  }

  function FingerprintOf(event: AsrEvent, text: string): Fingerprint {
    Fingerprint(event.final, event.segment, text, event.detail)
  }

  class Reconciler {
    var active: map<string, Revision<Body>>
    var finals: map<string, Revision<Body>>
    var lastRevision: map<string, nat>
    var seenIds: set<string>
    var seenFingerprints: set<Fingerprint>
    /** Everything handed to the publisher so far. */
    ghost var emitted: set<Revision<Body>>

    ghost predicate Valid()
      reads this
    {
      Accounted(emitted, lastRevision, finals.Keys)
    }

    constructor ()
      ensures Valid() && emitted == {}
    {
      active, finals, lastRevision := map[], map[], map[];
      seenIds, seenFingerprints := {}, {};
      emitted := {};
    }

    /** A result with a segment and a text that is more than whitespace, under an id not seen before. */
    predicate IsNew(event: AsrEvent)
      reads this
    {
      && event.result && event.segment != "" && event.text.Some?
      && (exists c :: c in event.text.value && !Strips(c)) && event.eventId !in seenIds
    }

    /** What is to be published: a new event that does not repeat another one, about a segment without a final. */
    predicate Publishable(event: AsrEvent)
      reads this
    {
      IsNew(event) && FingerprintOf(event, event.text.value) !in seenFingerprints && event.segment !in finals
    }

    /** The first half of `consume`: an error, or whether the event is new and its segment still open. */
    method Screen(event: AsrEvent) returns (open: Result<bool, string>)
      modifies `seenIds, `seenFingerprints
      ensures open.Failure? <==> event.result && (event.segment == "" || event.text.None?)
      ensures open == Success(true) <==> old(Publishable(event))
      ensures seenIds == old(seenIds) + if old(IsNew(event)) then {event.eventId} else {}
      ensures seenFingerprints ==
              old(seenFingerprints) + if old(IsNew(event)) then {FingerprintOf(event, event.text.value)} else {}
    {
      if !event.result {
        return Success(false);
      }
      if event.segment == "" {
        return Failure("segment_id");
      }
      if event.text.None? {
        return Failure("text");
      }
      if Blank(event.text.value, Strips) || event.eventId in seenIds {
        return Success(false);
      }
      seenIds := seenIds + {event.eventId};
      var fingerprint := FingerprintOf(event, event.text.value);
      if fingerprint in seenFingerprints {
        return Success(false);
      }
      seenFingerprints := seenFingerprints + {fingerprint};
      return Success(event.segment !in finals);
    }

    /** The second half of `consume`: number the revision and record it. */
    method Record(segment: string, final: bool, body: Body) returns (caption: Revision<Body>)
      requires Valid() && segment !in finals
      modifies `active, `finals, `lastRevision, `emitted
      ensures Valid() && emitted == old(emitted) + {caption}
      ensures caption.segment == segment && caption.status == (if final then Final else Draft) && caption.content == body
      ensures forall x | x in old(emitted) && x.segment == segment :: x.number < caption.number
      ensures caption.number == (if segment in old(lastRevision) then old(lastRevision)[segment] else 0) + 1
      ensures lastRevision == old(lastRevision)[segment := caption.number]
      ensures finals == (if final then old(finals)[segment := caption] else old(finals))
      ensures active == (if final then old(active) - {segment} else old(active)[segment := caption])
    {
      var revision := (if segment in lastRevision then lastRevision[segment] else 0) + 1;
      caption := Revision(segment, revision, if final then Final else Draft, body);
      DraftsBelow(emitted, lastRevision, finals.Keys, caption);
      ExtendAccounted(emitted, lastRevision, finals.Keys, caption);
      lastRevision := lastRevision[segment := revision];
      Keep(caption, final);
      emitted := emitted + {caption};
    }

    /** A final closes its segment; a draft becomes the segment's active one. */
    method Keep(caption: Revision<Body>, final: bool)
      modifies `active, `finals
      ensures finals == (if final then old(finals)[caption.segment := caption] else old(finals))
      ensures finals.Keys == (if final then old(finals.Keys) + {caption.segment} else old(finals.Keys))
      ensures active == (if final then old(active) - {caption.segment} else old(active)[caption.segment := caption])
    {
      if final {
        active := active - {caption.segment};
        finals := finals[caption.segment := caption];
      } else {
        active := active[caption.segment := caption];
      }
    }

    /** `consume`: an error, nothing to publish, or the next revision of the segment. */
    method Consume(event: AsrEvent) returns (out: Result<Option<Revision<Body>>, string>)
      requires Valid()
      modifies this
      ensures Valid()
      ensures out.Failure? <==> event.result && (event.segment == "" || event.text.None?)
      ensures out.Success? && out.value.Some? <==> old(Publishable(event))
      ensures seenIds == old(seenIds) + if old(IsNew(event)) then {event.eventId} else {}
      ensures seenFingerprints ==
              old(seenFingerprints) + if old(IsNew(event)) then {FingerprintOf(event, event.text.value)} else {}
      ensures !old(Publishable(event)) ==>
                emitted == old(emitted) && active == old(active) && finals == old(finals) && lastRevision == old(lastRevision)
      ensures old(Publishable(event)) ==>
                var r := out.value.value;
                && emitted == old(emitted) + {r}
                && r.segment == event.segment && r.status == (if event.final then Final else Draft)
                && r.content == Body(event.text.value, event.eventId, event.detail)
                && r.number == (if r.segment in old(lastRevision) then old(lastRevision)[r.segment] else 0) + 1
                && lastRevision == old(lastRevision)[r.segment := r.number]
                && finals == (if event.final then old(finals)[r.segment := r] else old(finals))
                && active == (if event.final then old(active) - {r.segment} else old(active)[r.segment := r])
                && forall x | x in old(emitted) && x.segment == r.segment :: x.number < r.number
    {
      var open := Screen(event);
      if open.Failure? {
        return Failure(open.error);
      }
      if !open.value {
        return Success(None);
      }
      var caption := Record(event.segment, event.final, Body(event.text.value, event.eventId, event.detail));
      return Success(Some(caption));
    }
  }

  lemma {:induction false} AccountedConverges(E: set<Revision<Body>>, last: map<string, nat>, finals: set<string>)
    requires Accounted(E, last, finals)
    ensures Converges(E)
  {
    DisciplineSettles(E);
    ConvergesIffSettled(E);
  }

  /** End to end: whatever a publisher has emitted converges in the replica, in any order and with any repeats. */
  lemma {:induction false} PublishedConverges(publisher: Reconciler)
    requires publisher.Valid()
    ensures Converges(publisher.emitted)
  {
    AccountedConverges(publisher.emitted, publisher.lastRevision, publisher.finals.Keys);
  }
}
