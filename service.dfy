/** The endpoints of the service and the module-level `sessions` table
    they share, keyed by phone number. */
module Service {
  import opened Platform
  import opened Http
  import opened Records
  import opened UsersDict
  import opened Parsing
  import opened Chats

  /** One `sessions[phone]` entry: the client object (named by the number of
      clients created before it) and the `phone_code_hash` of the code
      request. */
  datatype Entry = Entry(client: nat, phoneCodeHash: string)

  /** What `connect()` followed by `send_code_request(phone)` gave back. */
  datatype CodeReply = CodeSent(phoneCodeHash: string) | CodeRequestFailed

  /** What `sign_in(phone, code, phone_code_hash=...)` did. */
  datatype SignInReply = SignedIn | CodeRejected | PasswordNeeded | SignInFailed

  /** The `sign_in` call that `verify_code` makes. */
  datatype SignInCall = SignInCall(phone: string, code: string, phoneCodeHash: string)

  /** What the client library yields for the chat of one parse request:
      whether `get_entity(chat_id)` succeeded, then its participant list
      and the enumeration of its message history. */
  datatype ChatSource = ChatSource(resolved: bool, participants: Participants, messages: Enumeration<Message>)

  /** The `{"users": ..., "total": ...}` response of `/parse`. */
  datatype ParseReport = ParseReport(users: seq<UserRecord>, total: int)

  /** The parse methods `/parse` accepts. */
  const ParseMethods: set<string> := {"messages", "members", "both"}

  /** The catch-all `except Exception as e` of `/parse` applied to an
      `HTTPException` raised further down: it is re-raised with status 400,
      whatever its own status was. */
  function AsBadRequest(e: Error): Error {
    Error(BadRequest, e.kind)
  }

  class SessionTable {
    /** `sessions`: phone number to its entry. */
    var sessions: map<string, Entry>
    /** How many `TelegramClient` objects `send_code` has constructed. */
    var clientsCreated: nat

    /** Every stored client was created by `send_code`, and no two phones
        share a client. */
    ghost predicate Valid()
      reads this
    {
      && (forall p :: p in sessions ==> sessions[p].client < clientsCreated)
      && (forall p, q :: p in sessions && q in sessions && p != q ==> sessions[p].client != sessions[q].client)
    }

    /** The table starts empty, as `sessions = {}` at module load. */
    constructor ()
      ensures Valid() && sessions == map[] && clientsCreated == 0
    {
      sessions := map[];
      clientsCreated := 0;
    }

    /** `/send_code`: a new client; on success the entry for `phone` is
        replaced by one holding that client and the returned hash, and no
        other entry changes; on failure nothing is stored. */
    method SendCode(phone: string, reply: CodeReply) returns (r: Result<()>)
      requires Valid()
      modifies this
      ensures Valid()
      ensures clientsCreated == old(clientsCreated) + 1
      ensures reply.CodeSent? ==>
                r == Ok(()) && sessions == old(sessions)[phone := Entry(old(clientsCreated), reply.phoneCodeHash)]
      ensures reply.CodeRequestFailed? ==>
                r == Err(Error(BadRequest, PlatformFailure)) && sessions == old(sessions)
    {
      var client := clientsCreated;
      clientsCreated := clientsCreated + 1;
      match reply {
        case CodeSent(hash) =>
          sessions := sessions[phone := Entry(client, hash)];
          r := Ok(());
        case CodeRequestFailed =>
          r := Err(Error(BadRequest, PlatformFailure));
      }
    }

    /** `/verify_code`: without an entry nothing is signed in; otherwise the
        code is submitted with the stored hash, and only a successful sign-in
        succeeds. The table is never changed. */
    method VerifyCode(phone: string, code: string, reply: SignInReply)
      returns (call: Option<SignInCall>, r: Result<()>)
      ensures phone !in sessions ==> call == None && r == Err(Error(BadRequest, CodeNotRequested))
      ensures phone in sessions ==> call == Some(SignInCall(phone, code, sessions[phone].phoneCodeHash))
      ensures phone in sessions && reply == SignedIn ==> r == Ok(())
      ensures phone in sessions && reply == CodeRejected ==> r == Err(Error(BadRequest, InvalidCode))
      ensures phone in sessions && reply == PasswordNeeded ==> r == Err(Error(BadRequest, PasswordRequired))
      ensures phone in sessions && reply == SignInFailed ==> r == Err(Error(BadRequest, PlatformFailure))
      ensures r.Err? ==> r.error.status == BadRequest
    {
      if phone !in sessions {
        return None, Err(Error(BadRequest, CodeNotRequested));
      }
      var entry := sessions[phone];
      call := Some(SignInCall(phone, code, entry.phoneCodeHash));
      match reply {
        case SignedIn => r := Ok(());
        case CodeRejected => r := Err(Error(BadRequest, InvalidCode));
        case PasswordNeeded => r := Err(Error(BadRequest, PasswordRequired));
        case SignInFailed => r := Err(Error(BadRequest, PlatformFailure));
      }
    }

    /** `/get_chats`: without an entry, an error; a failing dialog
        enumeration, an error; otherwise the classified dialogs, one per
        dialog and in dialog order. */
    method GetChats(phone: string, dialogs: Enumeration<Dialog>) returns (r: Result<seq<ChatSummary>>)
      ensures phone !in sessions ==> r == Err(Error(BadRequest, NotAuthorized))
      ensures phone in sessions && dialogs.EnumerationFailed? ==> r == Err(Error(BadRequest, PlatformFailure))
      ensures phone in sessions && dialogs.Enumerated? ==> r.Ok? && |r.value| == |dialogs.items|
      ensures phone in sessions && dialogs.Enumerated? ==> forall i :: 0 <= i < |dialogs.items| ==>
                r.value[i].id == dialogs.items[i].id && r.value[i].name == dialogs.items[i].name
                && Kind(r.value[i].chatType, r.value[i].isGroup) == Classify(dialogs.items[i].entity)
    {
      if phone !in sessions {
        return Err(Error(BadRequest, NotAuthorized));
      }
      if dialogs.EnumerationFailed? {
        return Err(Error(BadRequest, PlatformFailure));
      }
      var chats := ListChats(dialogs.items);
      return Ok(chats);
    }

    /** `/parse`: without an entry, or when the chat cannot be resolved, an
        error; then dispatch on the method name, any other name being an
        error; a failing message enumeration fails the `messages` and `both`
        methods. Every error leaves with status 400, the 403 of a refused
        participant list included; `total` is the length of `users`. */
    method Parse(phone: string, parseMethod: string, chat: ChatSource) returns (r: Result<ParseReport>)
      ensures phone !in sessions ==> r == Err(Error(BadRequest, NotAuthorized))
      ensures phone in sessions && !chat.resolved ==> r == Err(Error(BadRequest, PlatformFailure))
      ensures phone in sessions && chat.resolved && parseMethod !in ParseMethods ==>
                r == Err(Error(BadRequest, InvalidMethod))
      ensures r.Ok? ==> parseMethod in ParseMethods && r.value.total == |r.value.users|
      ensures r.Err? ==> r.error.status == BadRequest
      ensures phone in sessions && chat.resolved ==>
                (r.Ok? <==> && parseMethod in ParseMethods
                            && (parseMethod == "members" ==> chat.participants.Listed?)
                            && (parseMethod != "members" ==> chat.messages.Enumerated?))
      ensures phone in sessions && chat.resolved && (parseMethod == "messages" || parseMethod == "both")
              && chat.messages.EnumerationFailed? ==>
                r == Err(Error(BadRequest, PlatformFailure))
      ensures phone in sessions && chat.resolved && parseMethod == "members"
              && chat.participants == Refused(AdminRequired) ==>
                r == Err(Error(BadRequest, AdminRightsRequired))
      ensures r.Ok? && parseMethod == "messages" ==>
                chat.messages.Enumerated? && |r.value.users| <= |chat.messages.items|
      ensures r.Ok? && parseMethod == "messages" ==>
                && chat.messages.Enumerated?
                && (exists d :: MessagesDict(chat.messages.items, d) && r.value.users == Values(d))
                && (forall d :: MessagesDict(chat.messages.items, d) ==> r.value.users == Values(d))
      ensures r.Ok? && parseMethod == "both" ==>
                && chat.messages.Enumerated?
                && (exists d :: BothDict(chat.participants, chat.messages.items, d) && r.value.users == Values(d))
                && (forall d :: BothDict(chat.participants, chat.messages.items, d) ==> r.value.users == Values(d))
      ensures r.Ok? && parseMethod == "members" ==>
                |r.value.users| == |UsersOf(chat.participants.items)|
                && forall i :: 0 <= i < |r.value.users| ==>
                     r.value.users[i] == RecordOf(UsersOf(chat.participants.items)[i])
    {
      if phone !in sessions {
        return Err(Error(BadRequest, NotAuthorized));
      }
      if !chat.resolved {
        return Err(Error(BadRequest, PlatformFailure));
      }
      var users: seq<UserRecord>;
      if parseMethod == "messages" {
        if chat.messages.EnumerationFailed? {
          return Err(Error(BadRequest, PlatformFailure));
        }
        var messages := chat.messages.items;
        var usersDict := ParseByMessages(messages);
        users := Values(usersDict);
        forall d | MessagesDict(messages, d) ensures users == Values(d) {
          MessagesDictUnique(messages, usersDict, d);
        }
      } else if parseMethod == "members" {
        var listed := ParseByMembers(chat.participants);
        if listed.Err? {
          return Err(AsBadRequest(listed.error));
        }
        users := listed.value;
      } else if parseMethod == "both" {
        if chat.messages.EnumerationFailed? {
          return Err(Error(BadRequest, PlatformFailure));
        }
        var messages := chat.messages.items;
        var usersDict := ParseBoth(chat.participants, messages);
        users := Values(usersDict);
        forall d | BothDict(chat.participants, messages, d) ensures users == Values(d) {
          BothDictUnique(chat.participants, messages, usersDict, d);
        }
      } else {
        return Err(Error(BadRequest, InvalidMethod));
      }
      return Ok(ParseReport(users, |users|));
    }

    /** `/disconnect`: an absent phone succeeds with nothing changed; a
        present one is removed, and only it, once its client disconnects; a
        failed disconnect is an error and keeps the entry. */
    method Disconnect(phone: string, disconnected: bool) returns (r: Result<()>)
      requires Valid()
      modifies this
      ensures Valid() && clientsCreated == old(clientsCreated)
      ensures phone !in old(sessions) ==> r == Ok(()) && sessions == old(sessions)
      ensures phone in old(sessions) && disconnected ==> r == Ok(()) && sessions == old(sessions) - {phone}
      ensures phone in old(sessions) && !disconnected ==>
                r == Err(Error(BadRequest, PlatformFailure)) && sessions == old(sessions)
    {
      if phone in sessions {
        if !disconnected {
          return Err(Error(BadRequest, PlatformFailure));
        }
        sessions := sessions - {phone};
      }
      return Ok(());
    }
  }

  /** A caller's view of the table: a code request for one phone leaves
      another phone's entry alone, and after a disconnect the phone must
      request a code again. */
  method SessionLifecycle(alice: string, bob: string, code: string)
    requires alice != bob
  {
    var table := new SessionTable();
    var sent := table.SendCode(alice, CodeSent("h1"));
    assert sent == Ok(()) && table.sessions[alice] == Entry(0, "h1");
    sent := table.SendCode(bob, CodeSent("h2"));
    assert table.sessions[alice] == Entry(0, "h1") && table.sessions[bob] == Entry(1, "h2");
    sent := table.SendCode(alice, CodeRequestFailed);
    assert sent.Err? && table.sessions[alice] == Entry(0, "h1");
    var call, verified := table.VerifyCode(alice, code, SignedIn);
    assert call == Some(SignInCall(alice, code, "h1")) && verified == Ok(());
    var closed := table.Disconnect(alice, true);
    assert closed == Ok(()) && alice !in table.sessions && bob in table.sessions;
    call, verified := table.VerifyCode(alice, code, SignedIn);
    assert call == None && verified == Err(Error(BadRequest, CodeNotRequested));
    closed := table.Disconnect(alice, false);
    assert closed == Ok(());
  }
}
