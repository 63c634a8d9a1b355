/**
 Two sessions and a network. Every run interleaves sends, in any order, with deliveries of packets
 that are still undelivered, in any order; a packet that is never delivered is lost.
*/
module RatchetNetwork {
  import opened SymbolicCrypto
  import opened Ratchet

  datatype Party = Alice | Bob

  datatype Packet = Packet(to: Party, wire: Wire, plaintext: Plaintext)

  /** `log` lists every packet ever sent; `net` holds those not yet delivered; `used` the secrets drawn. */
  datatype World = World(alice: Session, bob: Session, net: set<Packet>, log: seq<Packet>, used: set<Secret>)
  {
    function SessionOf(who: Party): Session {
      if who == Alice then alice else bob
    }

    function With(who: Party, s: Session): World {
      if who == Alice then this.(alice := s) else this.(bob := s)
    }
  }

  datatype Event =
    | Send(who: Party, plaintext: Plaintext, newKey: Secret)
    | Deliver(packet: Packet, newKey: Secret)

  function Other(who: Party): Party {
    if who == Alice then Bob else Alice
  }

  function Init(bobKey: Secret, aliceKey: Secret, bobFirst: Secret): World {
    World(Initiator(aliceKey, Pub(bobKey)), Responder(bobKey, Pub(aliceKey), bobFirst), {}, [],
          {bobKey, aliceKey, bobFirst})
  }

  /** The generator never repeats a secret, counters do not overflow, and a packet is delivered from the network. */
  predicate Enabled(w: World, e: Event) {
    && e.newKey !in w.used
    && match e
       case Send(who, _, _) => w.SessionOf(who).sendN < U32_MAX
       case Deliver(p, _) => p in w.net
  }

  /** A packet whose decryption fails stays in the network, so that it can be tried again. */
  function Step(w: World, e: Event): World {
    match e
    case Send(who, plaintext, k) =>
      var (s, wire) := Encrypt(w.SessionOf(who), plaintext, k);
      var p := Packet(Other(who), wire, plaintext);
      w.With(who, s).(net := w.net + {p}, log := w.log + [p], used := w.used + {k})
    case Deliver(p, k) =>
      var (s, r) := Decrypt(w.SessionOf(p.to), p.wire, k);
      w.With(p.to, s).(net := if r.Ok? then w.net - {p} else w.net, used := w.used + {k})
  }

  predicate IsRun(w: World, events: seq<Event>)
    decreases |events|
  {
    events == [] || (Enabled(w, events[0]) && IsRun(Step(w, events[0]), events[1..]))
  }

  function Run(w: World, events: seq<Event>): World
    requires IsRun(w, events)
    decreases |events|
  {
    if events == [] then w else Run(Step(w, events[0]), events[1..])
  }

  predicate Distinct3(a: Secret, b: Secret, c: Secret) {
    a != b && a != c && b != c
  }

  ghost predicate Reachable(w: World) {
    exists bobKey, aliceKey, bobFirst, events ::
      && Distinct3(bobKey, aliceKey, bobFirst)
      && IsRun(Init(bobKey, aliceKey, bobFirst), events)
      && w == Run(Init(bobKey, aliceKey, bobFirst), events)
  }
}
