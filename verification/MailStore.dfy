/**
 The mail half of `FileStore` (`file-store.ts`) with `readAck` and `deleteMessage` of `message.ts`: one
 caller at a time, addresses and message ids as the caller gives them.
 */
module MailStore {
  import opened Prelude
  import opened Mailbox

  datatype MailError = InvalidId | NotUnread | NotInInbox

  /** An id becomes one file-name segment, so it must not be empty, a dot name, or hold a separator. */
  predicate SafeId(id: string) {
    id != "" && id != "." && id != ".." && forall c :: c in id ==> c != '/' && c != '\\' && c != '\0'
  }

  datatype Folder = Folder(unread: map<MsgId, Msg>, read: map<MsgId, Msg>)

  const NO_MAIL := Folder(map[], map[])

  class Mail {
    var folders: map<string, Folder>

    /** An address nobody wrote to, or one that cannot name a directory, has no mail. */
    function FolderOf(id: string): Folder
      reads this
    {
      if SafeId(id) && id in folders then folders[id] else NO_MAIL
    }

    ghost predicate OnlyChanges(before: map<string, Folder>, id: string)
      reads this
    {
      forall other :: other != id ==>
        (other in folders <==> other in before) && (other in folders ==> folders[other] == before[other])
    }

    method PutMessage(to: string, msg: Msg) returns (r: Option<MailError>)
      modifies this
      ensures r == if SafeId(to) && SafeId(msg.id) then None else Some(InvalidId)
      ensures r.Some? ==> folders == old(folders)
      ensures r.None? ==> FolderOf(to) == Folder(old(FolderOf(to)).unread[msg.id := msg], old(FolderOf(to)).read)
      ensures OnlyChanges(old(folders), to)
    {
      if !SafeId(to) || !SafeId(msg.id) {
        return Some(InvalidId);
      }
      var f := FolderOf(to);
      folders := folders[to := f.(unread := f.unread[msg.id := msg])];
      return None;
    }

    method AckMessage(id: string, msgId: MsgId) returns (r: Result<Msg, MailError>)
      modifies this
      ensures r.Success? <==> SafeId(msgId) && msgId in old(FolderOf(id)).unread
      ensures r.Failure? ==> r.error == NotUnread && folders == old(folders)
      ensures r.Success? ==>
                var f := old(FolderOf(id));
                r.value == f.unread[msgId] && FolderOf(id) == Folder(f.unread - {msgId}, f.read[msgId := r.value])
      ensures OnlyChanges(old(folders), id)
    {
      var f := FolderOf(id);
      if !SafeId(msgId) || msgId !in f.unread {
        return Failure(NotUnread);
      }
      var msg := f.unread[msgId];
      folders := folders[id := Folder(f.unread - {msgId}, f.read[msgId := msg])];
      return Success(msg);
    }

    /** Removes the unread copy when there is one, else the read one. */
    method RemoveMessage(id: string, msgId: MsgId) returns (r: Option<MailError>)
      modifies this
      ensures r.None? <==> SafeId(msgId) && (msgId in old(FolderOf(id)).unread || msgId in old(FolderOf(id)).read)
      ensures r.Some? ==> r.value == NotInInbox && folders == old(folders)
      ensures r.None? ==>
                var f := old(FolderOf(id));
                FolderOf(id) == if msgId in f.unread then Folder(f.unread - {msgId}, f.read)
                                else Folder(f.unread, f.read - {msgId})
      ensures OnlyChanges(old(folders), id)
    {
      var f := FolderOf(id);
      if SafeId(msgId) && msgId in f.unread {
        folders := folders[id := f.(unread := f.unread - {msgId})];
        return None;
      }
      if SafeId(msgId) && msgId in f.read {
        folders := folders[id := f.(read := f.read - {msgId})];
        return None;
      }
      return Some(NotInInbox);
    }

    method RemoveMailbox(id: string) returns (r: Option<MailError>)
      modifies this
      ensures r == if SafeId(id) then None else Some(InvalidId)
      ensures FolderOf(id) == NO_MAIL
      ensures OnlyChanges(old(folders), id)
    {
      if !SafeId(id) {
        return Some(InvalidId);
      }
      folders := folders - {id};
      return None;
    }

    /** Consumes an unread message, and hands back an already read one without error. */
    method ReadAck(id: string, msgId: MsgId) returns (r: Result<(Msg, bool), MailError>)
      modifies this
      ensures r.Success? && r.value.1 ==>
                var f := old(FolderOf(id));
                msgId in f.unread && r.value.0 == f.unread[msgId]
                && FolderOf(id) == Folder(f.unread - {msgId}, f.read[msgId := f.unread[msgId]])
      ensures r.Success? && !r.value.1 ==>
                folders == old(folders) && msgId !in old(FolderOf(id)).unread
                && msgId in old(FolderOf(id)).read && r.value.0 == old(FolderOf(id)).read[msgId]
      ensures r.Failure? <==> if msgId in old(FolderOf(id)).unread then !SafeId(msgId)
                              else msgId !in old(FolderOf(id)).read
      ensures r.Failure? ==> folders == old(folders)
    {
      var f := FolderOf(id);
      if msgId in f.unread {
        var acked := AckMessage(id, msgId);
        if acked.Failure? {
          return Failure(acked.error);
        }
        return Success((acked.value, true));
      }
      if msgId in f.read {
        return Success((f.read[msgId], false));
      }
      return Failure(NotInInbox);
    }

    /** Sending, reading once and reading again: the message comes back as sent, consumed exactly once. */
    method SendReadTwice(to: string, msg: Msg)
      returns (sent: Option<MailError>, first: Result<(Msg, bool), MailError>, second: Result<(Msg, bool), MailError>)
      requires SafeId(to) && SafeId(msg.id)
      modifies this
      ensures sent == None && first == Success((msg, true)) && second == Success((msg, false))
    {
      sent := PutMessage(to, msg);
      first := ReadAck(to, msg.id);
      second := ReadAck(to, msg.id);
    }
  }
}
