/** Chains of hashed events: each link hashes the previous hash together with one event. */
module HashChain {
  import opened Options

  /** An event dict as the chain reads it; None is a missing or null entry. */
  datatype Event = Event(ts: Option<string>, actor: Option<string>, eventType: Option<string>, note: Option<string>)

  /** An emitted link. */
  datatype Link = Link(ts: string, actor: string, eventType: string, note: Option<string>, prevHash: string,
      hash: string)

  /** The text hashed for one event, and the digest. */
  datatype Hasher = Hasher(text: (string, Event) -> string, digest: string -> string) {
    function Hash(prev: string, e: Event): string {
      digest(text(prev, e))
    }

    /** What is hashed determines the previous hash and the event. */
    ghost predicate Injective() {
      forall p, e, q, f :: text(p, e) == text(q, f) ==> p == q && e == f
    }
  }

  /** "0" * 64 */
  const GENESIS := "0000000000000000000000000000000000000000000000000000000000000000"

  function Head(h: Hasher, events: seq<Event>): string {
    if events == [] then GENESIS
    else
      var n := |events| - 1;
      h.Hash(Head(h, events[..n]), events[n])
  }

  function Emitted(h: Hasher, prev: string, e: Event): Link {
    Link(e.ts.GetOr(""), e.actor.GetOr(""), e.eventType.GetOr(""), e.note, prev, h.Hash(prev, e))
  }

  function Chain(h: Hasher, events: seq<Event>): seq<Link> {
    if events == [] then []
    else
      var n := |events| - 1;
      Chain(h, events[..n]) + [Emitted(h, Head(h, events[..n]), events[n])]
  }

  method BuildChain(h: Hasher, events: seq<Event>) returns (chained: seq<Link>, head: string)
    ensures chained == Chain(h, events) && head == Head(h, events)
  {
    var prev := GENESIS;
    chained := [];
    for k := 0 to |events|
      invariant prev == Head(h, events[..k]) && chained == Chain(h, events[..k])
    {
      var ev := events[k];
      var hash := h.Hash(prev, ev);
      chained := chained + [Link(ev.ts.GetOr(""), ev.actor.GetOr(""), ev.eventType.GetOr(""), ev.note, prev, hash)];
      prev := hash;
      assert events[..k + 1][..k] == events[..k];
    }
    assert events[..|events|] == events;
    head := prev;
  }

  /** What two histories with one head come down to. */
  datatype Finding = SameHistory | Collides(x: string, y: string) | HitsGenesis(x: string)

  /** Walks both chains back from their heads to the first difference. */
  function Compare(h: Hasher, a: seq<Event>, b: seq<Event>): Finding {
    if a == [] && b == [] then SameHistory
    else if a == [] then HitsGenesis(LastText(h, b))
    else if b == [] then HitsGenesis(LastText(h, a))
    else if LastText(h, a) != LastText(h, b) then Collides(LastText(h, a), LastText(h, b))
    else Compare(h, a[..|a| - 1], b[..|b| - 1])
  }

  function LastText(h: Hasher, events: seq<Event>): string
    requires events != []
  {
    h.text(Head(h, events[..|events| - 1]), events[|events| - 1])
  }

  /** RESULT: histories with equal heads are equal, or the comparison hands over two different hashed texts with one
      digest, or a hashed text whose digest is the all-zero genesis. */
  lemma {:induction false} TamperEvidence(h: Hasher, a: seq<Event>, b: seq<Event>)
    requires h.Injective() && Head(h, a) == Head(h, b)
    ensures match Compare(h, a, b)
      case SameHistory => a == b
      case Collides(x, y) => x != y && h.digest(x) == h.digest(y)
      case HitsGenesis(x) => h.digest(x) == GENESIS
  {
    if a != [] && b != [] && LastText(h, a) == LastText(h, b) {
      var m, n := |a| - 1, |b| - 1;
      TamperEvidence(h, a[..m], b[..n]);
      assert a == a[..m] + [a[m]] && b == b[..n] + [b[n]];
    }
  }

  lemma {:induction false} ChainLength(h: Hasher, events: seq<Event>)
    ensures |Chain(h, events)| == |events|
  {
    if events != [] {
      ChainLength(h, events[..|events| - 1]);
    }
  }

  /** RESULT: recording more events extends the chain and leaves the links already emitted as they are. */
  lemma {:induction false} AppendExtends(h: Hasher, events: seq<Event>, more: seq<Event>)
    ensures Chain(h, events) <= Chain(h, events + more)
  {
    if more == [] {
      assert events + more == events;
    } else {
      var n := |more| - 1;
      AppendExtends(h, events, more[..n]);
      assert (events + more)[..|events + more| - 1] == events + more[..n];
    }
  }

  /** The event an auditor reads back from an emitted link. */
  function EventOf(l: Link): Event {
    Event(Some(l.ts), Some(l.actor), Some(l.eventType), l.note)
  }

  predicate Complete(e: Event) {
    e.ts.Some? && e.actor.Some? && e.eventType.Some?
  }

  /** Recomputes every hash from the emitted fields alone. */
  predicate Audits(h: Hasher, prev: string, links: seq<Link>)
    decreases |links|
  {
    links == []
    || (links[0].prevHash == prev && links[0].hash == h.Hash(prev, EventOf(links[0]))
        && Audits(h, links[0].hash, links[1..]))
  }

  function LastHash(prev: string, links: seq<Link>): string {
    if links == [] then prev else links[|links| - 1].hash
  }

  lemma {:induction false} AuditsAppend(h: Hasher, prev: string, links: seq<Link>, l: Link)
    decreases |links|
    ensures Audits(h, prev, links + [l]) <==>
      Audits(h, prev, links) && l.prevHash == LastHash(prev, links)
          && l.hash == h.Hash(LastHash(prev, links), EventOf(l))
  {
    if links == [] {
      assert (links + [l])[1..] == [];
    } else {
      AuditsAppend(h, links[0].hash, links[1..], l);
      assert (links + [l])[1..] == links[1..] + [l];
    }
  }

  /** The emitted fields still say what was hashed exactly when nothing was missing. */
  lemma EmittedLossless(h: Hasher, prev: string, e: Event)
    requires h.Injective()
    ensures h.text(prev, EventOf(Emitted(h, prev, e))) == h.text(prev, e) <==> Complete(e)
  {
    assert EventOf(Emitted(h, prev, e)) == e <==> Complete(e);
  }

  lemma LastHashOfChain(h: Hasher, events: seq<Event>)
    ensures LastHash(GENESIS, Chain(h, events)) == Head(h, events)
  {
  }

  /** What is recomputed for event i is another text with the same digest. */
  predicate Colliding(h: Hasher, events: seq<Event>, i: nat)
    requires i < |events|
  {
    var prev := Head(h, events[..i]);
    var x, y := h.text(prev, EventOf(Emitted(h, prev, events[i]))), h.text(prev, events[i]);
    x != y && h.digest(x) == h.digest(y)
  }

  predicate Recomputable(h: Hasher, events: seq<Event>, i: nat)
    requires i < |events|
  {
    Complete(events[i]) || Colliding(h, events, i)
  }

  lemma LinkRecomputable(h: Hasher, events: seq<Event>, i: nat)
    requires h.Injective() && i < |events|
    ensures
      var prev := Head(h, events[..i]);
      h.Hash(prev, events[i]) == h.Hash(prev, EventOf(Emitted(h, prev, events[i]))) <==> Recomputable(h, events, i)
  {
    EmittedLossless(h, Head(h, events[..i]), events[i]);
  }

  /** RESULT: an auditor holding only the emitted links recomputes the chain exactly when every event has a time,
      actor and type, unless an event that lacks one collides. */
  lemma {:induction false} ChainAudits(h: Hasher, events: seq<Event>)
    requires h.Injective()
    ensures Audits(h, GENESIS, Chain(h, events)) <==> forall i :: 0 <= i < |events| ==> Recomputable(h, events, i)
  {
    if events != [] {
      var n := |events| - 1;
      var front := events[..n];
      ChainAudits(h, front);
      LastHashOfChain(h, front);
      AuditsAppend(h, GENESIS, Chain(h, front), Emitted(h, Head(h, front), events[n]));
      LinkRecomputable(h, events, n);
      forall i | 0 <= i < n ensures Recomputable(h, front, i) <==> Recomputable(h, events, i) {
        assert front[i] == events[i] && front[..i] == events[..i];
      }
    }
  }
}
