/** One Redis server, as the program uses it: a map from keys to typed entries, assumed reliable. */
module Redis {
  import opened CText
  import opened Options

  /** `Str` holds the expiry it was set with, 0 for none; `Ranked` lists a sorted set by rank. */
  datatype Entry = Str(text: string, ttl: nat) | Members(members: set<string>) | Ranked(ranks: seq<Rank>)

  datatype Rank = Rank(score: int, member: string)

  type Store = map<string, Entry>

  /** The commands that name one key. */
  datatype Command =
    | Get
    | Set(text: string, ttl: int)
    | Incr(expire: int)
    | IncrBy(amount: int)
    | Sadd(member: string)
    | Smembers
    | Del
    | ZAdd(score: string, member: string)
    | ZFront(before: string)
    | ZPop

  datatype Reply = Reply(ok: bool, text: string, members: set<string>)

  const FAILED := Reply(false, "", {})

  function Done(text: string := "", members: set<string> := {}): Reply { Reply(true, text, members) }

  function Lookup(s: Store, key: string): Option<Entry> {
    if key in s then Some(s[key]) else None
  }

  function Store1(s: Store, key: string, e: Option<Entry>): Store {
    match e
    case None => s - {key}
    case Some(v) => s[key := v]
  }

  /** A number Redis can count with: decimal digits with an optional minus sign. */
  predicate IsNumber(s: string) {
    var t := if s != [] && s[0] == '-' then s[1..] else s;
    t != [] && forall k :: 0 <= k < |t| ==> IsDigit(t[k])
  }

  function Number(s: string): int
    requires IsNumber(s)
  {
    if s[0] == '-' then var n: int := Digits(s[1..], 0); -n else Digits(s, 0)
  }

  function Add(e: Option<Entry>, amount: int): (Option<Entry>, Reply) {
    match e
    case None => (Some(Str(Print(amount), 0)), Done())
    case Some(Str(text, ttl)) =>
      if IsNumber(text) then (Some(Str(Print(Number(text) + amount), ttl)), Done()) else (e, FAILED)
    case Some(_) => (e, FAILED)
  }

  predicate Before(a: string, b: string) {
    b != [] && (a == [] || a[0] < b[0] || (a[0] == b[0] && Before(a[1..], b[1..])))
  }

  /** Ranks are by score, and by member among equal scores. */
  predicate Lower(a: Rank, b: Rank) {
    a.score < b.score || (a.score == b.score && Before(a.member, b.member))
  }

  function Without(z: seq<Rank>, member: string): seq<Rank> {
    if z == [] then [] else if z[0].member == member then Without(z[1..], member) else [z[0]] + Without(z[1..], member)
  }

  function Insert(z: seq<Rank>, r: Rank): seq<Rank> {
    if z == [] || Lower(r, z[0]) then [r] + z else [z[0]] + Insert(z[1..], r)
  }

  predicate HasMember(z: seq<Rank>, member: string) { exists k :: 0 <= k < |z| && z[k].member == member }

  /** `r` is in `z`, once, where an insertion would put it. */
  predicate Stands(z: seq<Rank>, r: Rank) {
    z != [] && if z[0].member == r.member then z[0] == r && !HasMember(z[1..], r.member) && (|z| == 1 || Lower(r, z[1]))
               else !Lower(r, z[0]) && Stands(z[1..], r)
  }

  predicate IsRankedOrMissing(e: Option<Entry>) { e.None? || e.value.Ranked? }

  /** The program tests the text it is left with: an empty answer leaves what the caller had `before`. */
  function Front(e: Option<Entry>, before: string): Reply
    requires IsRankedOrMissing(e)
  {
    var text := if e.None? || e.value.ranks == [] then before else e.value.ranks[0].member;
    Reply(text != "", text, {})
  }

  /** What a command does to the entry of its key, and what the program gets back.
      An empty string counts as missing; `Incr` with an expiry and `Del` send malformed commands,
      which the server refuses. */
  function OnEntry(c: Command, e: Option<Entry>): (Option<Entry>, Reply) {
    match c
    case Get =>
      if e.Some? && e.value.Str? && e.value.text != "" then (e, Done(e.value.text)) else (e, FAILED)
    case Set(text, ttl) => (Some(Str(text, if ttl > 0 then ttl else 0)), Done())
    case Incr(expire) => if expire > 0 then (e, FAILED) else Add(e, 1)
    case IncrBy(amount) => Add(e, if amount > 0 then amount else 1)
    case Sadd(m) =>
      if e.None? then (Some(Members({m})), Done())
      else if e.value.Members? then (Some(Members(e.value.members + {m})), Done())
      else (e, FAILED)
    case Smembers =>
      if e.None? then (e, Done())
      else if e.value.Members? then (e, Done("", e.value.members))
      else (e, FAILED)
    case Del => (e, FAILED)
    case ZAdd(score, m) =>
      if !IsNumber(score) then (e, FAILED)
      else if e.None? then (Some(Ranked([Rank(Number(score), m)])), Done())
      else if e.value.Ranked? then (Some(Ranked(Insert(Without(e.value.ranks, m), Rank(Number(score), m)))), Done())
      else (e, FAILED)
    case ZFront(before) =>
      if IsRankedOrMissing(e) then (e, Front(e, before)) else (e, Reply(false, before, {}))
    case ZPop =>
      if e.None? then (e, Done())
      else if e.value.Ranked? then
        (if |e.value.ranks| <= 1 then None else Some(Ranked(e.value.ranks[1..])), Done())
      else (e, FAILED)
  }

  function Exec(s: Store, key: string, c: Command): (Store, Reply) {
    var (e, r) := OnEntry(c, Lookup(s, key));
    (Store1(s, key, e), r)
  }

  predicate IsSetOrMissing(e: Option<Entry>) { e.None? || e.value.Members? }

  function MembersOf(s: Store, key: string): set<string> {
    if key in s && s[key].Members? then s[key].members else {}
  }

  function SetOrNothing(m: set<string>): Option<Entry> { if m == {} then None else Some(Members(m)) }

  /** Moves a member between two sets of one server; nothing happens when it is not in the first. */
  function SMove(s: Store, src: string, dst: string, m: string): (Store, Reply) {
    if src !in s then (s, Done())
    else if !s[src].Members? || !IsSetOrMissing(Lookup(s, dst)) then (s, FAILED)
    else if src == dst || m !in s[src].members then (s, Done())
    else
      var s1 := Store1(s, src, SetOrNothing(s[src].members - {m}));
      (s1[dst := Members(MembersOf(s, dst) + {m})], Done())
  }
}
