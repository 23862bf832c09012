/** The three ways of collecting the users of a chat: from message
    senders (`parse_by_messages`), from the participant list
    (`parse_by_members`) and from both, participants first (`parse_both`). */
module Parsing {
  import opened Platform
  import opened Http
  import opened Records
  import opened UsersDict

  // ---------------------------------------------------------------
  // Message senders
  // ---------------------------------------------------------------

  /** Message `m` has sender id `k` and its sender lookup returned a `User`. */
  predicate Resolves(m: Message, k: int) {
    m.senderId == Some(k) && m.lookup.SenderUser?
  }

  /** Some message of `msgs` from `k` resolves to a `User`. */
  ghost predicate SendsAsUser(msgs: seq<Message>, k: int) {
    exists i :: 0 <= i < |msgs| && Resolves(msgs[i], k)
  }

  /** The position of the first message from `k` that resolves to a `User`,
      or `|msgs|` when there is none. */
  ghost function FirstHit(msgs: seq<Message>, k: int): (i: nat)
    ensures i <= |msgs|
    ensures i < |msgs| ==> Resolves(msgs[i], k)
  {
    if msgs == [] then 0
    else if Resolves(msgs[0], k) then 0
    else 1 + FirstHit(msgs[1..], k)
  }

  /** The record built from the first message from `k` that resolves. */
  ghost function SenderRecord(msgs: seq<Message>, k: int): UserRecord
    requires FirstHit(msgs, k) < |msgs|
  {
    RecordOf(msgs[FirstHit(msgs, k)].lookup.user)
  }

  /** No message before `FirstHit` resolves for `k`. */
  lemma {:induction false} FirstHitMinimal(msgs: seq<Message>, k: int, j: nat)
    requires j < |msgs| && Resolves(msgs[j], k)
    ensures FirstHit(msgs, k) <= j
  {
    if j > 0 && !Resolves(msgs[0], k) {
      FirstHitMinimal(msgs[1..], k, j - 1);
    }
  }

  /** `FirstHit` finds a message exactly when one exists. */
  lemma FirstHitFinds(msgs: seq<Message>, k: int)
    ensures FirstHit(msgs, k) < |msgs| <==> SendsAsUser(msgs, k)
  {
    if SendsAsUser(msgs, k) {
      var i :| 0 <= i < |msgs| && Resolves(msgs[i], k);
      FirstHitMinimal(msgs, k, i);
    }
  }

  /** Messages that do not resolve for `k` (no sender, a failed lookup, a
      non-`User` sender) do not use up `k`: the search goes on into the
      messages after them. */
  lemma {:induction false} FirstHitAppend(a: seq<Message>, b: seq<Message>, k: int)
    ensures FirstHit(a + b, k) == if FirstHit(a, k) < |a| then FirstHit(a, k) else |a| + FirstHit(b, k)
  {
    if a == [] {
      assert a + b == b;
    } else {
      assert (a + b)[0] == a[0];
      assert (a + b)[1..] == a[1..] + b;
      FirstHitAppend(a[1..], b, k);
    }
  }

  /** What the message walk has established about keys and records after
      the first `i` messages. */
  ghost predicate SenderKeysSoFar(msgs: seq<Message>, start: Dict, d: Dict, i: nat)
    requires i <= |msgs|
  {
    && Valid(d)
    && (forall k :: k in start.entries ==> k in d.entries && d.entries[k] == start.entries[k])
    && (forall k :: k in d.entries <==> k in start.entries || FirstHit(msgs, k) < i)
    && (forall k :: k in d.entries && k !in start.entries ==>
          FirstHit(msgs, k) < i && d.entries[k] == SenderRecord(msgs, k))
  }

  /** What the message walk has established about the key order after
      the first `i` messages. */
  ghost predicate SenderOrderSoFar(msgs: seq<Message>, start: Dict, d: Dict, i: nat)
  {
    && |start.order| <= |d.order| <= |start.order| + i
    && d.order[..|start.order|] == start.order
    && (forall p :: |start.order| <= p < |d.order| ==> d.order[p] !in start.entries)
    && (forall p :: |start.order| <= p < |d.order| ==> FirstHit(msgs, d.order[p]) < i)
    && (forall p, q :: |start.order| <= p < q < |d.order| ==>
          FirstHit(msgs, d.order[p]) < FirstHit(msgs, d.order[q]))
  }

  ghost predicate SendersSoFar(msgs: seq<Message>, start: Dict, d: Dict, i: nat)
  {
    i <= |msgs| && SenderKeysSoFar(msgs, start, d, i) && SenderOrderSoFar(msgs, start, d, i)
  }

  /** A message that adds nothing keeps what the walk has established. */
  lemma SendersSkip(msgs: seq<Message>, start: Dict, d: Dict, i: nat)
    requires i < |msgs| && SendersSoFar(msgs, start, d, i)
    requires !(msgs[i].senderId.Some? && msgs[i].senderId.value !in d.entries && msgs[i].lookup.SenderUser?)
    ensures SendersSoFar(msgs, start, d, i + 1)
  {
    forall k ensures k in d.entries <==> k in start.entries || FirstHit(msgs, k) < i + 1 {
      if FirstHit(msgs, k) == i {
        assert Resolves(msgs[i], k);
      }
    }
  }

  /** A new sender that resolves to a `User` gets its record ... */
  lemma SenderKeysAdd(msgs: seq<Message>, start: Dict, before: Dict, d: Dict, i: nat)
    requires i < |msgs| && SenderKeysSoFar(msgs, start, before, i)
    requires msgs[i].senderId.Some? && msgs[i].senderId.value !in before.entries && msgs[i].lookup.SenderUser?
    requires d == Assign(before, msgs[i].senderId.value, RecordOf(msgs[i].lookup.user))
    ensures SenderKeysSoFar(msgs, start, d, i + 1)
    ensures FirstHit(msgs, msgs[i].senderId.value) == i
    ensures msgs[i].senderId.value !in start.entries
    ensures d.order == before.order + [msgs[i].senderId.value]
  {
    var id := msgs[i].senderId.value;
    FirstHitMinimal(msgs, id, i);
    assert FirstHit(msgs, id) == i;
    forall k | k in start.entries ensures k in d.entries && d.entries[k] == start.entries[k] {
      assert k != id;
    }
    forall k ensures k in d.entries <==> k in start.entries || FirstHit(msgs, k) < i + 1 {
      if FirstHit(msgs, k) == i {
        assert Resolves(msgs[i], k);
      }
    }
    forall k | k in d.entries && k !in start.entries
      ensures FirstHit(msgs, k) < i + 1 && d.entries[k] == SenderRecord(msgs, k)
    {
      if k != id {
        assert k in before.entries;
      }
    }
  }

  /** ... and goes to the end of the order. */
  lemma SenderOrderAdd(msgs: seq<Message>, start: Dict, before: Dict, d: Dict, i: nat)
    requires i < |msgs| && SenderOrderSoFar(msgs, start, before, i)
    requires msgs[i].senderId.Some? && msgs[i].senderId.value !in start.entries
    requires FirstHit(msgs, msgs[i].senderId.value) == i
    requires d.order == before.order + [msgs[i].senderId.value]
    ensures SenderOrderSoFar(msgs, start, d, i + 1)
  {
    var id := msgs[i].senderId.value;
    var n, m := |start.order|, |before.order|;
    assert d.order[..n] == before.order[..n];
    forall p | n <= p < |d.order| ensures d.order[p] !in start.entries && FirstHit(msgs, d.order[p]) < i + 1 {
      if p < m { assert d.order[p] == before.order[p]; }
    }
    forall p, q | n <= p < q < |d.order| ensures FirstHit(msgs, d.order[p]) < FirstHit(msgs, d.order[q]) {
      assert d.order[p] == before.order[p];
      if q < m { assert d.order[q] == before.order[q]; }
    }
  }

  /** The `async for message in client.iter_messages(...)` loop shared by
      `parse_by_messages` (started from `{}`) and `parse_both` (started from
      the participants' dict). A message with no sender is skipped; a sender
      already present is never looked up again, so its record is never
      replaced; a lookup that fails or returns a non-`User` adds nothing and
      leaves the id free for a later message. */
  method CollectSenders(msgs: seq<Message>, start: Dict) returns (d: Dict)
    requires Valid(start)
    ensures Valid(d)
    ensures |start.order| <= |d.order| <= |start.order| + |msgs|
    ensures d.order[..|start.order|] == start.order
    ensures forall p :: |start.order| <= p < |d.order| ==> d.order[p] !in start.entries
    ensures forall k :: k in start.entries ==> k in d.entries && d.entries[k] == start.entries[k]
    ensures forall k :: k in d.entries <==> k in start.entries || SendsAsUser(msgs, k)
    ensures forall k :: k in d.entries && k !in start.entries ==>
              FirstHit(msgs, k) < |msgs| && d.entries[k] == SenderRecord(msgs, k)
    ensures forall p, q :: |start.order| <= p < q < |d.order| ==>
              FirstHit(msgs, d.order[p]) < FirstHit(msgs, d.order[q])
  {
    d := start;
    var i := 0;
    while i < |msgs|
      invariant SendersSoFar(msgs, start, d, i)
    {
      var m := msgs[i];
      ghost var before := d;
      if m.senderId.Some? {
        var id := m.senderId.value;
        if id !in d.entries {
          match m.lookup {
            case SenderUser(u) =>
              d := Assign(d, id, RecordOf(u));
            case SenderNonUser =>
            case LookupFailed =>
          }
        }
      }
      if d == before {
        SendersSkip(msgs, start, d, i);
      } else {
        SenderKeysAdd(msgs, start, before, d, i);
        SenderOrderAdd(msgs, start, before, d, i);
      }
      i := i + 1;
    }
    forall k ensures k in d.entries <==> k in start.entries || SendsAsUser(msgs, k) {
      FirstHitFinds(msgs, k);
    }
  }

  /** `parse_by_messages`, as the `users_dict` whose `list(values())` it
      returns: one record per sender id whose lookup returned a `User`, taken
      from the first such message, in the order those first messages come;
      no lookup failure stops the walk. */
  method ParseByMessages(msgs: seq<Message>) returns (d: Dict)
    ensures MessagesDict(msgs, d)
    ensures |Values(d)| <= |msgs|
  {
    d := CollectSenders(msgs, Empty);
  }

  /** The `users_dict` of `parse_by_messages`: consistent, keyed by exactly
      the sender ids that resolve to a `User`, each with the record of its
      first resolving message, in the order of those first messages. */
  ghost predicate MessagesDict(msgs: seq<Message>, d: Dict) {
    && Valid(d)
    && (forall k :: k in d.entries <==> SendsAsUser(msgs, k))
    && (forall k :: k in d.entries ==> FirstHit(msgs, k) < |msgs| && d.entries[k] == SenderRecord(msgs, k))
    && (forall p, q :: 0 <= p < q < |d.order| ==> FirstHit(msgs, d.order[p]) < FirstHit(msgs, d.order[q]))
  }

  /** The messages determine the dict: at most one dict meets `MessagesDict`. */
  lemma MessagesDictUnique(msgs: seq<Message>, d1: Dict, d2: Dict)
    requires MessagesDict(msgs, d1) && MessagesDict(msgs, d2)
    ensures d1 == d2
  {
    forall k ensures k in d1.entries <==> k in d2.entries {
    }
    forall k | k in d1.entries ensures d1.entries[k] == d2.entries[k] {
    }
    assert d1.entries == d2.entries;
    RankedDictUnique(d1, d2, k => FirstHit(msgs, k));
  }

  // ---------------------------------------------------------------
  // Participants
  // ---------------------------------------------------------------

  /** Participant `x` is a `User` with id `k`. */
  predicate MemberIs(x: Participant, k: int) {
    x.Member? && x.user.id == k
  }

  /** The participant list was obtained and holds a `User` with id `k`. */
  ghost predicate IsMember(p: Participants, k: int) {
    p.Listed? && exists i :: 0 <= i < |p.items| && MemberIs(p.items[i], k)
  }

  /** The `User` participants, in participant order (the `isinstance(user, User)` filter). */
  ghost function UsersOf(items: seq<Participant>): seq<User> {
    if items == [] then []
    else (if items[0].Member? then [items[0].user] else []) + UsersOf(items[1..])
  }

  /** Filtering distributes over concatenation: order is kept and nothing is merged. */
  lemma {:induction false} UsersOfAppend(a: seq<Participant>, b: seq<Participant>)
    ensures UsersOf(a + b) == UsersOf(a) + UsersOf(b)
  {
    if a != [] {
      assert (a + b)[1..] == a[1..] + b;
      UsersOfAppend(a[1..], b);
    } else {
      assert a + b == b;
    }
  }

  /** One more participant adds at most its own user to the filtered prefix. */
  lemma UsersOfPrefix(items: seq<Participant>, i: nat)
    requires i < |items|
    ensures UsersOf(items[..i + 1]) == UsersOf(items[..i]) + (if items[i].Member? then [items[i].user] else [])
  {
    assert items[..i + 1] == items[..i] + [items[i]];
    UsersOfAppend(items[..i], [items[i]]);
    assert UsersOf([items[i]]) == (if items[i].Member? then [items[i].user] else []);
  }

  /** Exactly the `User` participants survive the filter. */
  lemma {:induction false} UsersOfMembers(items: seq<Participant>, u: User)
    ensures u in UsersOf(items) <==> Member(u) in items
  {
    if items != [] {
      UsersOfMembers(items[1..], u);
      assert items == [items[0]] + items[1..];
    }
  }

  /** When every participant is a `User`, each one gives one entry, in
      place: repeated users are not merged. */
  lemma {:induction false} UsersOfAllMembers(items: seq<Participant>)
    requires forall i :: 0 <= i < |items| ==> items[i].Member?
    ensures |UsersOf(items)| == |items|
    ensures forall i :: 0 <= i < |items| ==> UsersOf(items)[i] == items[i].user
  {
    if items != [] {
      UsersOfAllMembers(items[1..]);
    }
  }

  /** `parse_by_members`: one record per `User` participant, in participant
      order, with no de-duplication; a missing admin right is reported with
      status 403 and any other failure with status 400. */
  method ParseByMembers(p: Participants) returns (r: Result<seq<UserRecord>>)
    ensures r.Ok? <==> p.Listed?
    ensures p.Listed? ==> |r.value| == |UsersOf(p.items)|
    ensures p.Listed? ==> forall i :: 0 <= i < |r.value| ==> r.value[i] == RecordOf(UsersOf(p.items)[i])
    ensures p == Refused(AdminRequired) ==> r == Err(Error(Forbidden, AdminRightsRequired))
    ensures p == Refused(OtherFailure) ==> r == Err(Error(BadRequest, PlatformFailure))
  {
    match p {
      case Refused(AdminRequired) =>
        return Err(Error(Forbidden, AdminRightsRequired));
      case Refused(OtherFailure) =>
        return Err(Error(BadRequest, PlatformFailure));
      case Listed(items) =>
        var users: seq<UserRecord> := [];
        var i := 0;
        while i < |items|
          invariant 0 <= i <= |items|
          invariant |users| == |UsersOf(items[..i])|
          invariant forall j :: 0 <= j < |users| ==> users[j] == RecordOf(UsersOf(items[..i])[j])
        {
          UsersOfPrefix(items, i);
          if items[i].Member? {
            users := users + [RecordOf(items[i].user)];
          }
          i := i + 1;
        }
        assert items[..|items|] == items;
        return Ok(users);
    }
  }

  /** The position of the first `User` participant with id `k`, or `|items|`. */
  ghost function FirstMember(items: seq<Participant>, k: int): (i: nat)
    ensures i <= |items|
    ensures i < |items| ==> MemberIs(items[i], k)
  {
    if items == [] then 0
    else if MemberIs(items[0], k) then 0
    else 1 + FirstMember(items[1..], k)
  }

  /** No participant before `FirstMember` is a `User` with id `k`. */
  lemma {:induction false} FirstMemberMinimal(items: seq<Participant>, k: int, j: nat)
    requires j < |items| && MemberIs(items[j], k)
    ensures FirstMember(items, k) <= j
  {
    if j > 0 && !MemberIs(items[0], k) {
      FirstMemberMinimal(items[1..], k, j - 1);
    }
  }

  /** The position of the last `User` participant with id `k` before `n`. */
  ghost function LastMember(items: seq<Participant>, n: nat, k: int): (r: Option<nat>)
    requires n <= |items|
    ensures r.Some? ==> r.value < n && MemberIs(items[r.value], k)
  {
    if n == 0 then None
    else if MemberIs(items[n - 1], k) then Some(n - 1)
    else LastMember(items, n - 1, k)
  }

  /** `LastMember` is the last occurrence: no `User` participant with id `k`
      comes after it, and none at all when it finds nothing. */
  lemma {:induction false} LastMemberIsLast(items: seq<Participant>, n: nat, k: int)
    requires n <= |items|
    ensures LastMember(items, n, k).Some? ==>
              forall j :: LastMember(items, n, k).value < j < n ==> !MemberIs(items[j], k)
    ensures LastMember(items, n, k).None? ==> forall j :: 0 <= j < n ==> !MemberIs(items[j], k)
  {
    if n > 0 && !MemberIs(items[n - 1], k) {
      LastMemberIsLast(items, n - 1, k);
    }
  }

  /** The record built from the last `User` participant with id `k`. */
  ghost function MemberRecord(items: seq<Participant>, k: int): UserRecord
    requires LastMember(items, |items|, k).Some?
  {
    RecordOf(items[LastMember(items, |items|, k).value].user)
  }

  /** What the participants loop has established about keys after the
      first `i` participants. */
  ghost predicate MemberKeysSoFar(items: seq<Participant>, d: Dict, i: nat)
  {
    forall k :: k in d.entries <==> FirstMember(items, k) < i
  }

  /** What the participants loop has established about records. */
  ghost predicate MemberRecordsSoFar(items: seq<Participant>, d: Dict, i: nat, record: User -> UserRecord)
    requires i <= |items|
  {
    forall k :: k in d.entries ==>
      LastMember(items, i, k).Some? && d.entries[k] == record(items[LastMember(items, i, k).value].user)
  }

  /** What the participants loop has established about the key order. */
  ghost predicate MemberOrderSoFar(items: seq<Participant>, order: seq<int>, i: nat)
  {
    && (forall a :: 0 <= a < |order| ==> FirstMember(items, order[a]) < i)
    && (forall a, b :: 0 <= a < b < |order| ==>
          FirstMember(items, order[a]) < FirstMember(items, order[b]))
  }

  /** One step of the participants loop: `users_dict[user.id] = record(user)`
      when the participant is a `User`, nothing otherwise. The loop's
      specification takes the record builder as a parameter, so that its
      proof is independent of what a record holds; the loop itself uses
      `RecordOf`. */
  ghost function MemberAssign(d: Dict, x: Participant, record: User -> UserRecord): (r: Dict)
    requires Valid(d)
    ensures Valid(r)
  {
    if x.Member? then Assign(d, x.user.id, record(x.user)) else d
  }

  /** After one more participant the keys are still the ids among those seen,
      and an id not seen before is first seen there. */
  lemma MemberKeysStep(items: seq<Participant>, before: Dict, n: nat, record: User -> UserRecord)
    requires 0 < n <= |items| && Valid(before) && MemberKeysSoFar(items, before, n - 1)
    ensures MemberKeysSoFar(items, MemberAssign(before, items[n - 1], record), n)
    ensures items[n - 1].Member? && items[n - 1].user.id !in before.entries ==>
              FirstMember(items, items[n - 1].user.id) == n - 1
  {
    var i, d := n - 1, MemberAssign(before, items[n - 1], record);
    if items[i].Member? {
      var id := items[i].user.id;
      if id !in before.entries {
        FirstMemberMinimal(items, id, i);
        assert FirstMember(items, id) == i;
      }
      forall k ensures k in d.entries <==> FirstMember(items, k) < i + 1 {
        if FirstMember(items, k) == i {
          assert MemberIs(items[i], k);
        }
      }
    } else {
      forall k ensures k in d.entries <==> FirstMember(items, k) < i + 1 {
        assert FirstMember(items, k) != i;
      }
    }
  }

  /** A `User` participant's record replaces any earlier one under its id;
      every other key keeps the record of its last occurrence so far. */
  lemma MemberRecordsStep(items: seq<Participant>, before: Dict, n: nat, record: User -> UserRecord)
    requires 0 < n <= |items| && Valid(before) && MemberRecordsSoFar(items, before, n - 1, record)
    ensures MemberRecordsSoFar(items, MemberAssign(before, items[n - 1], record), n, record)
  {
    var i, d := n - 1, MemberAssign(before, items[n - 1], record);
    if items[i].Member? {
      var id := items[i].user.id;
      forall k | k in d.entries
        ensures LastMember(items, i + 1, k).Some?
        ensures d.entries[k] == record(items[LastMember(items, i + 1, k).value].user)
      {
        if k != id {
          assert k in before.entries;
          assert LastMember(items, i + 1, k) == LastMember(items, i, k);
        } else {
          assert LastMember(items, i + 1, k) == Some(i);
        }
      }
    } else {
      forall k | k in d.entries ensures LastMember(items, i + 1, k) == LastMember(items, i, k) {
      }
    }
  }

  /** Appending an id first seen at participant `n - 1` keeps the order
      one of first occurrence. */
  lemma MemberOrderAppend(items: seq<Participant>, order: seq<int>, id: int, n: nat)
    requires 0 < n && MemberOrderSoFar(items, order, n - 1) && FirstMember(items, id) == n - 1
    ensures MemberOrderSoFar(items, order + [id], n)
  {
    var m, s := |order|, order + [id];
    forall a | 0 <= a < |s| ensures FirstMember(items, s[a]) < n {
      if a < m { assert s[a] == order[a]; }
    }
    forall a, b | 0 <= a < b < |s|
      ensures FirstMember(items, s[a]) < FirstMember(items, s[b])
    {
      assert s[a] == order[a];
      if b < m { assert s[b] == order[b]; }
    }
  }

  /** A new id goes to the end of the order; a repeated one, or a participant
      that is not a `User`, leaves the order as it was. */
  lemma MemberOrderStep(items: seq<Participant>, before: Dict, n: nat, record: User -> UserRecord)
    requires 0 < n <= |items| && Valid(before) && MemberOrderSoFar(items, before.order, n - 1)
    requires items[n - 1].Member? && items[n - 1].user.id !in before.entries ==>
               FirstMember(items, items[n - 1].user.id) == n - 1
    ensures MemberOrderSoFar(items, MemberAssign(before, items[n - 1], record).order, n)
  {
    var i, d := n - 1, MemberAssign(before, items[n - 1], record);
    if items[i].Member? && items[i].user.id !in before.entries {
      assert d.order == before.order + [items[i].user.id];
      MemberOrderAppend(items, before.order, items[i].user.id, n);
    } else {
      assert d.order == before.order;
    }
  }

  /** The participants half of `parse_both`: `users_dict[user.id] = ...` for
      every `User` participant, so a repeated id keeps the place of its first
      occurrence and the record of its last; any failure to list the
      participants is swallowed and leaves the dict empty. */
  method MembersDict(p: Participants) returns (d: Dict)
    ensures Valid(d)
    ensures p.Refused? ==> d == Empty
    ensures forall k :: k in d.entries <==> IsMember(p, k)
    ensures forall k :: k in d.entries ==>
              p.Listed? && LastMember(p.items, |p.items|, k).Some? && d.entries[k] == MemberRecord(p.items, k)
    ensures p.Listed? ==> forall a, b :: 0 <= a < b < |d.order| ==>
              FirstMember(p.items, d.order[a]) < FirstMember(p.items, d.order[b])
  {
    if p.Refused? {
      return Empty;
    }
    d := AssignMembers(p.items);
    MembersDone(p, d);
  }

  /** The participants loop of `parse_both`: `users_dict[user.id] = ...` for
      every `User` participant, in participant order, starting from `{}`. */
  method AssignMembers(items: seq<Participant>) returns (d: Dict)
    ensures d == MembersUpTo(items, |items|, RecordOf)
  {
    d := Empty;
    var i := 0;
    while i < |items|
      invariant 0 <= i <= |items|
      invariant d == MembersUpTo(items, i, RecordOf)
    {
      if items[i].Member? {
        var u := items[i].user;
        d := Assign(d, u.id, RecordOf(u));
      }
      i := i + 1;
    }
  }

  /** The dict after the participants loop has handled the first `n`
      participants. */
  ghost function MembersUpTo(items: seq<Participant>, n: nat, record: User -> UserRecord): (d: Dict)
    requires n <= |items|
    ensures Valid(d)
  {
    if n == 0 then Empty
    else
      MemberAssign(MembersUpTo(items, n - 1, record), items[n - 1], record)
  }

  /** After `n` participants, the keys are the ids of the `User`
      participants among them. */
  lemma {:induction false} MembersUpToKeys(items: seq<Participant>, n: nat, record: User -> UserRecord)
    requires n <= |items|
    ensures MemberKeysSoFar(items, MembersUpTo(items, n, record), n)
  {
    if n > 0 {
      MembersUpToKeys(items, n - 1, record);
      MemberKeysStep(items, MembersUpTo(items, n - 1, record), n, record);
    }
  }

  /** After `n` participants, each key holds the record of its last
      occurrence among them. */
  lemma {:induction false} MembersUpToRecords(items: seq<Participant>, n: nat, record: User -> UserRecord)
    requires n <= |items|
    ensures MemberRecordsSoFar(items, MembersUpTo(items, n, record), n, record)
  {
    if n > 0 {
      MembersUpToRecords(items, n - 1, record);
      MemberRecordsStep(items, MembersUpTo(items, n - 1, record), n, record);
    }
  }

  /** After `n` participants, the keys are in order of first occurrence. */
  lemma {:induction false} MembersUpToOrder(items: seq<Participant>, n: nat, record: User -> UserRecord)
    requires n <= |items|
    ensures MemberOrderSoFar(items, MembersUpTo(items, n, record).order, n)
  {
    if n > 0 {
      var i, before := n - 1, MembersUpTo(items, n - 1, record);
      MembersUpToOrder(items, i, record);
      assert items[i].Member? && items[i].user.id !in before.entries ==>
               FirstMember(items, items[i].user.id) == i by {
        MembersUpToKeys(items, i, record);
        MemberKeysStep(items, before, n, record);
      }
      MemberOrderStep(items, before, n, record);
    }
  }

  /** After the last participant, the loop's dict meets the contract of `MembersDict`. */
  lemma MembersDone(p: Participants, d: Dict)
    requires p.Listed? && d == MembersUpTo(p.items, |p.items|, RecordOf)
    ensures Valid(d)
    ensures forall k :: k in d.entries <==> IsMember(p, k)
    ensures forall k :: k in d.entries ==>
              LastMember(p.items, |p.items|, k).Some? && d.entries[k] == MemberRecord(p.items, k)
    ensures forall a, b :: 0 <= a < b < |d.order| ==>
              FirstMember(p.items, d.order[a]) < FirstMember(p.items, d.order[b])
  {
    MembersUpToKeys(p.items, |p.items|, RecordOf);
    MembersUpToRecords(p.items, |p.items|, RecordOf);
    MembersUpToOrder(p.items, |p.items|, RecordOf);
    MemberKeysComplete(p, d);
  }

  /** Once every participant has been seen, the keys are the `User`
      participant ids. */
  lemma MemberKeysComplete(p: Participants, d: Dict)
    requires p.Listed? && MemberKeysSoFar(p.items, d, |p.items|)
    ensures forall k :: k in d.entries <==> IsMember(p, k)
  {
    forall k ensures k in d.entries <==> IsMember(p, k) {
      if IsMember(p, k) {
        var j :| 0 <= j < |p.items| && MemberIs(p.items[j], k);
        FirstMemberMinimal(p.items, k, j);
      }
    }
  }

  // ---------------------------------------------------------------
  // Both sources
  // ---------------------------------------------------------------

  /** `parse_both`, as the `users_dict` whose `list(values())` it returns:
      the ids are those of the `User` participants together with
      those of the message senders that resolve to a `User`; a participant's
      record is never replaced by a message sender's; every participant comes
      before every sender found only through messages; a failed participant
      listing does not stop the message walk. */
  method ParseBoth(p: Participants, msgs: seq<Message>) returns (d: Dict)
    ensures BothDict(p, msgs, d)
  {
    var members := MembersDict(p);
    d := CollectSenders(msgs, members);
    var n := |members.order|;
    forall a | 0 <= a < |d.order| ensures IsMember(p, d.order[a]) <==> a < n {
      if a < n {
        assert d.order[a] == d.order[..n][a] == members.order[a];
      }
    }
    forall a, b | 0 <= a < b < |d.order| && IsMember(p, d.order[b])
      ensures p.Listed? && FirstMember(p.items, d.order[a]) < FirstMember(p.items, d.order[b])
    {
      assert d.order[a] == d.order[..n][a] == members.order[a];
      assert d.order[b] == d.order[..n][b] == members.order[b];
    }
  }

  /** The `users_dict` of `parse_both`: consistent; keyed by the `User`
      participant ids together with the sender ids that resolve to a `User`;
      a participant's record is that of its last occurrence, a message-only
      id's that of its first resolving message; participant keys come first,
      in order of first occurrence, then the message-only keys in the order
      of their first resolving messages. */
  ghost predicate BothDict(p: Participants, msgs: seq<Message>, d: Dict) {
    && Valid(d)
    && (forall k :: k in d.entries <==> IsMember(p, k) || SendsAsUser(msgs, k))
    && (forall k :: IsMember(p, k) ==>
          k in d.entries && p.Listed? && LastMember(p.items, |p.items|, k).Some?
          && d.entries[k] == MemberRecord(p.items, k))
    && (forall k :: !IsMember(p, k) && SendsAsUser(msgs, k) ==>
          k in d.entries && FirstHit(msgs, k) < |msgs| && d.entries[k] == SenderRecord(msgs, k))
    && (forall a, b :: 0 <= a < b < |d.order| && !IsMember(p, d.order[a]) ==> !IsMember(p, d.order[b]))
    && (forall a, b :: 0 <= a < b < |d.order| && IsMember(p, d.order[b]) ==>
          p.Listed? && FirstMember(p.items, d.order[a]) < FirstMember(p.items, d.order[b]))
    && (forall a, b :: 0 <= a < b < |d.order| && !IsMember(p, d.order[a]) ==>
          FirstHit(msgs, d.order[a]) < FirstHit(msgs, d.order[b]))
  }

  /** The position of `k` in the combined discovery order of `parse_both`:
      participants by first occurrence, then message senders by first
      resolving message. */
  ghost function BothRank(p: Participants, msgs: seq<Message>, k: int): int {
    if IsMember(p, k) then FirstMember(p.items, k)
    else (if p.Listed? then |p.items| else 0) + FirstHit(msgs, k)
  }

  /** The order `BothDict` demands is the order of increasing `BothRank`. */
  lemma BothDictRanked(p: Participants, msgs: seq<Message>, d: Dict)
    requires BothDict(p, msgs, d)
    ensures RankedBy(d, k => BothRank(p, msgs, k))
  {
    forall a, b | 0 <= a < b < |d.order|
      ensures BothRank(p, msgs, d.order[a]) < BothRank(p, msgs, d.order[b])
    {
      var x, y := d.order[a], d.order[b];
      if IsMember(p, x) && !IsMember(p, y) {
        var j :| 0 <= j < |p.items| && MemberIs(p.items[j], x);
        FirstMemberMinimal(p.items, x, j);
      }
    }
  }

  /** The participants and messages determine the dict: at most one dict
      meets `BothDict`. */
  lemma BothDictUnique(p: Participants, msgs: seq<Message>, d1: Dict, d2: Dict)
    requires BothDict(p, msgs, d1) && BothDict(p, msgs, d2)
    ensures d1 == d2
  {
    forall k ensures k in d1.entries <==> k in d2.entries {
    }
    forall k | k in d1.entries ensures d1.entries[k] == d2.entries[k] {
    }
    assert d1.entries == d2.entries;
    BothDictRanked(p, msgs, d1);
    BothDictRanked(p, msgs, d2);
    RankedDictUnique(d1, d2, k => BothRank(p, msgs, k));
  }
}
