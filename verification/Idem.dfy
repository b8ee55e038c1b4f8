// The once-only guard both consumer groups put before their effects (internal/idem/idem.go).

module Idem {
  import opened Token

  const SEEN_TTL := 600 * SECOND

  /** The seen:<group>:* keys of one group: challenge id to expiry time. */
  type Seen = map<string, int>

  predicate Live(seen: Seen, id: string, now: int) {
    id in seen && now < seen[id]
  }

  /** SET NX EX: stores the key unless a live one is there. */
  function SetNX(seen: Seen, id: string, now: int): Seen {
    if Live(seen, id, now) then seen else seen[id := now + SEEN_TTL]
  }

  /** A Redis command is answered, or its reply is lost; `stored` says whether a command with a
      lost reply nevertheless took effect. */
  datatype Reply = Answered | Unanswered(stored: bool)

  predicate Stores(r: Reply) {
    r.Answered? || r.stored
  }

  /** idem.FirstSee: first is true only for the one caller whose command stored the key. */
  method FirstSee(seen: Seen, id: string, now: int, reply: Reply) returns (seen': Seen, first: bool)
    ensures seen' == if reply == Unanswered(false) then seen else SetNX(seen, id, now)
    ensures first <==> reply.Answered? && !Live(seen, id, now)
  {
    seen' := seen;
    var free := !(id in seen && now < seen[id]);
    if free && reply != Unanswered(false) { seen' := seen[id := now + SEEN_TTL]; }
    first := reply.Answered? && free;
  }
}
