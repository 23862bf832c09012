/** The data the service receives from the Telegram client library.
    Every network call of the library (participant listing, message
    history, sender lookup, dialog listing) is modelled as an input value
    that holds what the call returned. */
module Platform {

  datatype Option<T> = None | Some(value: T)

  /** The fields of a Telegram `User` that record building reads. */
  datatype User = User(
    id: int,
    firstName: Option<string>,
    lastName: Option<string>,
    username: Option<string>,
    phone: Option<string>)

  /** One element returned by `get_participants`: a `User`, or any other entity. */
  datatype Participant = Member(user: User) | NonUserParticipant

  /** Why `get_participants` raised. */
  datatype ParticipantsError = AdminRequired | OtherFailure

  /** The outcome of `get_participants` for one chat. */
  datatype Participants = Listed(items: seq<Participant>) | Refused(reason: ParticipantsError)

  /** The outcome of `message.get_sender()`: a `User`, another entity, or an exception. */
  datatype SenderLookup = SenderUser(user: User) | SenderNonUser | LookupFailed

  /** One message of `iter_messages`; `senderId` is present exactly when `message.sender` is set. */
  datatype Message = Message(senderId: Option<int>, lookup: SenderLookup)

  /** The kind of entity behind a dialog, as the `isinstance` checks see it. */
  datatype Entity = UserEntity | ChannelEntity(megagroup: bool) | ChatEntity | OtherEntity

  /** The outcome of an `async for` over `iter_dialogs` or `iter_messages`:
      every element, in order, or an exception raised at some point of the
      enumeration; whatever was yielded before the exception is lost with
      the request, so it is not kept. */
  datatype Enumeration<T> = Enumerated(items: seq<T>) | EnumerationFailed

  /** One element of `iter_dialogs`. */
  datatype Dialog = Dialog(id: int, name: string, entity: Entity)
}
