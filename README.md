# Telegram chat parser: a Dafny model

The service (`main.py`) signs a user in to Telegram with a phone number and a
one-time code, lists that user's dialogs, and collects the users of one chat.
Users are collected from the chat's message senders, from its participant
list, or from both. This project models the part of it that holds logic of
its own:

- the module-level `sessions` table that the endpoints share, as the class
  `Service.SessionTable`. It has a `map` from phone to entry and methods for
  `/send_code`, `/verify_code`, `/get_chats`, `/parse` and `/disconnect`;
- the three collection modes (`Parsing`), each a method with a loop over its
  input. The insertion-ordered Python dict they fill is `UsersDict.Dict`: a key
  order plus a `map`;
- the per-user record (`Records`): the name stripped and defaulted, the
  username prefixed with `@`, and the phone defaulted to `''`;
- the dialog classification of `/get_chats` (`Chats`).

The Telegram client library is not modelled. What each of its calls returns
is an input value (`Platform`):

- the participant list is `Listed(items)` or `Refused(AdminRequired | OtherFailure)`;
- the dialog and message enumerations are `Enumerated(items)` or
  `EnumerationFailed`;
- each message has an optional sender id and a sender lookup result, which is
  `SenderUser(user)`, `SenderNonUser` or `LookupFailed`;
- each dialog has an entity: `UserEntity`, `ChannelEntity(megagroup)`,
  `ChatEntity` or `OtherEntity`;
- the endpoint methods take the reply of `send_code_request`, `sign_in` and
  `disconnect` as a parameter.

Errors are `Http.Error(status, kind)`. Every endpoint failure has status 400.
`parse_by_members` gives a missing admin right status 403. `/parse` catches
every exception with its catch-all handler and raises it again with status
400, and the model does the same (`AsBadRequest`, applied to the error of
`parse_by_members`).

Some behaviour of the code is worth stating outright, because a reader of
the endpoints' names might expect otherwise:

- The code keeps no provenance tag (`Members` / `Messages` / `Both`) on a
  record. A record is only `name`, `username` and `phone`.
- There is no authentication state and no second-factor step. `verify_code`
  only checks that the phone has an entry. A sign-in that needs a password is
  an error like any other.
- `send_code` always builds a new client and overwrites the phone's entry. It
  does not reuse the existing session.
- `disconnect` whose client fails to disconnect is an error, and the entry
  stays.
- Members-only mode does not de-duplicate.
- In both mode, the participants loop assigns `users_dict[user.id]` without a
  membership test. A repeated participant id keeps the place of its first
  occurrence and the record of its last. This is the only place where "first
  seen wins" fails. Among message senders the first one wins. A participant
  also wins against any later message sender with the same id.
- The service has neither progress streaming nor export formats: `/parse`
  answers once, with the whole list.

## Model

| member | source | states |
|---|---|---|
| `Records.Strip` | main.py:191 | Python's `str.strip()`: the result is empty exactly when the input is all whitespace; otherwise it has no whitespace at either end and is the input minus a whitespace-only prefix and suffix |
| `Records.DisplayName` | main.py:191-193 | the name is never empty; it is `'Нет имени'` when both name parts are missing or blank, and otherwise the trimmed joined name |
| `Records.FullNameBlank` | main.py:191 | `"first last".strip()` is empty exactly when both parts are missing or whitespace-only |
| `Records.FullNameJoins` | main.py:191 | with both parts present and without edge whitespace, the name is `first + " " + last` |
| `Records.FullNameFirstOnly` | main.py:191 | a missing or empty last name leaves no trailing blank: the name is the first name |
| `Records.FullNameLastOnly` | main.py:191 | a missing or empty first name leaves no leading blank: the name is the last name |
| `Records.Handle` | main.py:194 | the username field is empty exactly when the username is missing or empty; otherwise it is `@` followed by the username |
| `Records.RecordFields` | main.py:191-196 | a user's record holds a never-empty display name, the `@` handle, and the phone, which is `''` exactly when the phone is missing or empty |
| `UsersDict.Assign` | main.py:192-196 | `d[k] = v` keeps the dict consistent, stores `v` under `k`, changes no other key, appends a new key at the end and leaves the order alone for an existing key |
| `UsersDict.Values` | main.py:200 | `list(d.values())` has one value per key, in key order |
| `UsersDict.DistinctCount` | main.py:200 | a consistent dict has exactly as many values as keys |
| `UsersDict.RankedUnique` | main.py:185-200 | two key orders with the same keys, each strictly increasing in the same discovery rank, are the same order |
| `UsersDict.RankedDictUnique` | main.py:200 | a consistent dict is fixed by its entries and the rank its insertion order follows, so `list(d.values())` is fixed too |
| `Parsing.FirstHitMinimal` | main.py:187-192 | no message before the one whose record is kept resolves to a `User` for that id: the record comes from the first successful lookup |
| `Parsing.FirstHitFinds` | main.py:184-190 | the first message from an id whose lookup gives a `User` is found exactly when such a message exists |
| `Parsing.FirstHitAppend` | main.py:187-198 | messages that do not resolve for an id (no sender, a failed lookup, a non-`User` sender) leave the id free: the first resolving message is searched for in the messages after them |
| `Parsing.CollectSenders` | main.py:183-198 | from a starting dict, the message loop keeps every existing entry unchanged and in place; it adds exactly the sender ids that resolve to a `User`, each with the record of its first resolving message, after the existing keys, in the order of those messages; it adds at most one key per message |
| `Parsing.ParseByMessages` | main.py:179-200 | the dict meets `MessagesDict`: one record per sender id that resolves to a `User`, taken from its first such message; ids in order of those first messages; at most as many records as messages; never fails |
| `Parsing.MessagesDictUnique` | main.py:179-200 | the messages determine the dict of `parse_by_messages`: two dicts that both meet `MessagesDict` are equal |
| `Parsing.UsersOfAppend` | main.py:210-217 | the `User` filter keeps order and merges nothing: filtering a concatenation is concatenating the filtered parts |
| `Parsing.UsersOfMembers` | main.py:211 | a user is kept exactly when it is a `User` participant |
| `Parsing.UsersOfAllMembers` | main.py:210-217 | when every participant is a `User`, each gives one entry at its own position, duplicates included |
| `Parsing.ParseByMembers` | main.py:203-223 | succeeds exactly when the participant list was obtained, with one record per `User` participant in participant order; a missing admin right gives status 403, any other failure 400 |
| `Parsing.MembersDict` | main.py:231-243 | the keys are exactly the `User` participant ids, ordered by first occurrence, each with the record of its last occurrence; a failed listing gives the empty dict |
| `Parsing.ParseBoth` | main.py:226-263 | the dict meets `BothDict`: the keys are the union of the `User` participant ids and the sender ids that resolve to a `User`; a participant's record is never replaced by a sender's; every participant key precedes every message-only key; each part keeps its own discovery order; a failed participant listing does not stop the message loop |
| `Parsing.BothDictRanked` | main.py:229-261 | the order `parse_both` gives is one rank: participants by first occurrence, then message-only senders by first resolving message |
| `Parsing.BothDictUnique` | main.py:226-263 | the participants and messages determine the dict of `parse_both`: two dicts that both meet `BothDict` are equal |
| `Chats.Classify` | main.py:104-118 | the chat type is always one of the five names; `is_group` holds exactly for supergroup, channel and group, that is, exactly for `Channel` and `Chat` entities; `unknown` is given exactly to unrecognised entities; a `User` is `personal` and not a group, a megagroup `Channel` is `supergroup` and any other `Channel` is `channel`, a `Chat` is `group` (each of these three a group), anything else `unknown` and not a group |
| `Chats.ClassifyDistinguishes` | main.py:107-118 | two entities get the same classification only when they are the same kind (megagroup flag included) |
| `Chats.ListChats` | main.py:102-125 | one summary per dialog, in dialog order, with the dialog's id and name and its entity's classification |
| `Service.SessionTable.constructor` | main.py:32 | the table starts empty |
| `Service.SessionTable.SendCode` | main.py:50-65 | a successful code request replaces the phone's entry with a new client and the returned hash and changes no other entry; a failed one changes nothing; client handles stay distinct across phones |
| `Service.SessionTable.VerifyCode` | main.py:68-90 | without an entry no sign-in is attempted and the error is 400; otherwise the code is submitted with the stored hash, only a successful sign-in succeeds, each failure is 400 with its own kind, and the table is unchanged |
| `Service.SessionTable.GetChats` | main.py:93-129 | without an entry, a 400 error; a failing dialog enumeration, a 400 error; otherwise the classified dialogs, one per dialog, in order |
| `Service.SessionTable.Parse` | main.py:132-161 | without an entry or an unresolvable chat, a 400 error; any method other than `messages`, `members` or `both` is a 400 error; `members` fails exactly when the participant list is refused, and the admin error comes out as 400; `messages` and `both` fail exactly when the message enumeration fails, in both mode even when the participants were listed; on success `total` is the length of `users`; messages mode returns the values of the one dict meeting `MessagesDict`, at most one user per message; members mode one record per `User` participant, in order; both mode the values of the one dict meeting `BothDict`; an error leaves with status 400, a refused admin right included |
| `Service.SessionTable.Disconnect` | main.py:164-175 | an absent phone succeeds with the table unchanged; a present phone whose client disconnects is removed, and only it; a failed disconnect is a 400 error and keeps the entry |

## Left out

- The web framework: the FastAPI app, CORS, routing, the pydantic request models, the root endpoint and uvicorn startup (main.py:16-25, 36-46, 266-274). They are HTTP plumbing.
- The Telegram client library itself (`connect`, `send_code_request`, `sign_in`, `iter_dialogs`, `get_participants`, `iter_messages`, `get_entity`, `get_sender`, `disconnect`). It is a foreign network library, so each call's outcome is an input value. A client object is named by a counter in the entry.
- `message.sender` truthiness: the model takes it as the presence of a sender id. Telethon's sender cache, which decides that value, is not modelled.
- The elements yielded before a dialog or message enumeration fails. The model has one `EnumerationFailed` outcome, whether the failure comes at the start or part-way, because the request fails with status 400 either way and nothing yielded is returned.
- Environment and credential reading (main.py:28-29) and the on-disk `session_{phone}` files. They are I/O.
- async scheduling and concurrent requests on `sessions`. The model is sequential.
- Error detail texts and `str(e)` rendering. An error carries only its status and kind.
- Open connections: the client that an overwritten entry held is never disconnected in the source. The model just drops it from the table and does not track open connections.
