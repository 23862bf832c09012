/** `get_chats`: every dialog becomes a summary, with a chat type and an
    `is_group` flag chosen by the kind of its entity. */
module Chats {
  import opened Platform

  /** The `chat_type` and `is_group` pair computed for one dialog. */
  datatype Kind = Kind(chatType: string, isGroup: bool)

  /** One element of the `chats` list: `{'id', 'name', 'type', 'is_group'}`. */
  datatype ChatSummary = ChatSummary(id: int, name: string, chatType: string, isGroup: bool)

  const ChatTypes: set<string> := {"personal", "supergroup", "channel", "group", "unknown"}
  const GroupTypes: set<string> := {"supergroup", "channel", "group"}

  /** The `isinstance` chain: `User`, then `Channel` (split by `megagroup`),
      then `Chat`, else the initial `"unknown"` and `False`. */
  function Classify(e: Entity): (k: Kind)
    ensures k.chatType in ChatTypes
    ensures k.isGroup <==> k.chatType in GroupTypes
    ensures k.isGroup <==> e.ChannelEntity? || e.ChatEntity?
    ensures k.chatType == "unknown" <==> e.OtherEntity?
    ensures e.UserEntity? ==> k == Kind("personal", false)
    ensures e.ChannelEntity? ==> k == Kind(if e.megagroup then "supergroup" else "channel", true)
    ensures e.ChatEntity? ==> k == Kind("group", true)
    ensures e.OtherEntity? ==> k == Kind("unknown", false)
  {
    if e.UserEntity? then Kind("personal", false)
    else if e.ChannelEntity? then
      (if e.megagroup then Kind("supergroup", true) else Kind("channel", true))
    else if e.ChatEntity? then Kind("group", true)
    else Kind("unknown", false)
  }

  /** No two entities are given the same classification. */
  lemma ClassifyDistinguishes(e1: Entity, e2: Entity)
    ensures Classify(e1) == Classify(e2) <==> e1 == e2
  {
  }

  /** The loop over `iter_dialogs()`: one summary per dialog, in dialog
      order, keeping the dialog's id and name. */
  method ListChats(dialogs: seq<Dialog>) returns (chats: seq<ChatSummary>)
    ensures |chats| == |dialogs|
    ensures forall i :: 0 <= i < |dialogs| ==>
              chats[i].id == dialogs[i].id && chats[i].name == dialogs[i].name
              && Kind(chats[i].chatType, chats[i].isGroup) == Classify(dialogs[i].entity)
  {
    chats := [];
    var i := 0;
    while i < |dialogs|
      invariant 0 <= i <= |dialogs|
      invariant |chats| == i
      invariant forall j :: 0 <= j < i ==>
                  chats[j].id == dialogs[j].id && chats[j].name == dialogs[j].name
                  && Kind(chats[j].chatType, chats[j].isGroup) == Classify(dialogs[j].entity)
    {
      var dialog := dialogs[i];
      var kind := Classify(dialog.entity);
      chats := chats + [ChatSummary(dialog.id, dialog.name, kind.chatType, kind.isGroup)];
      i := i + 1;
    }
  }
}
