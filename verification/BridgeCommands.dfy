/**
  Commands over a bridge (crates/hub/src/bridge.rs, crates/hub/src/db/integrations.rs): a command id
  the hub has carried out gets the same result again, as long as the result's row can be found.
*/
module BridgeCommands {
  import opened Wrappers

  /** A bridge's id and the server's command id. */
  datatype Key = Key(bridge: string, command: string)

  datatype Row = Row(result: string, at: int)

  /** How saving a result went: not at all (or the hub died first), without the purge, or fully. */
  datatype Saving = Unsaved | Inserted | Purged

  const WEEK: int := 7 * 24 * 3600 * 1000

  const UNREADABLE := "400 This hub can't read that command"

  /** What a server may send, as far as commands go. */
  datatype Message =
    | Command(command: string)
    | Unreadable(named: Option<string>)
    | NoCommand

  datatype Reply = Reply(command: string, result: string)

  function Recent(rows: map<Key, Row>, now: int): map<Key, Row> {
    map k | k in rows && rows[k].at >= now - WEEK :: rows[k]
  }

  /** The table after one result was saved. */
  function SavedTo(rows: map<Key, Row>, key: Key, result: string, now: int, saving: Saving): map<Key, Row> {
    match saving
    case Unsaved => rows
    case Inserted => rows[key := Row(result, now)]
    case Purged => Recent(rows[key := Row(result, now)], now)
  }

  /** The hub's table of command results, shared by its bridges. */
  class Results {
    var rows: map<Key, Row>

    constructor ()
      ensures rows == map[]
    {
      rows := map[];
    }

    method Save(key: Key, result: string, now: int, saving: Saving)
      modifies this
      ensures rows == SavedTo(old(rows), key, result, now, saving)
    {
      if saving == Unsaved {
        return;
      }
      rows := rows[key := Row(result, now)];
      if saving == Purged {
        rows := Recent(rows, now);
      }
    }

    /** One message, with nothing else going on meanwhile: the reply to send, and whether a command was
        carried out. `looked`: the lookup worked. */
    method Handle(bridge: string, m: Message, looked: bool, verdict: string, now: int, saving: Saving)
      returns (reply: Option<Reply>, executed: bool)
      modifies this
      ensures m.Command? ==>
                var key := Key(bridge, m.command);
                && executed == !(looked && key in old(rows))
                && rows == (if executed then SavedTo(old(rows), key, verdict, now, saving) else old(rows))
                && reply == Some(Reply(m.command, if executed then verdict else old(rows)[key].result))
      ensures !m.Command? ==> rows == old(rows) && !executed
      ensures m.Unreadable? && m.named.Some? ==> reply == Some(Reply(m.named.value, UNREADABLE))
      ensures m.NoCommand? || m == Unreadable(None) ==> reply == None
    {
      match m
      case Unreadable(named) =>
        reply := if named.Some? then Some(Reply(named.value, UNREADABLE)) else None;
        executed := false;
      case NoCommand =>
        reply, executed := None, false;
      case Command(command) =>
        var key := Key(bridge, command);
        if looked && key in rows {
          return Some(Reply(command, rows[key].result)), false;
        }
        Save(key, verdict, now, saving);
        return Some(Reply(command, verdict)), true;
    }
  }
}
