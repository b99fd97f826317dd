/** saveChat of src/app/functions.js: stores a conversation in the chats
    table, updating the caller's own row when a chat id is given and
    inserting a new row otherwise. The table is a map from chat id to row;
    the session lookup and the database's answer are oracles. */
module ChatSaving {
  import opened JsSemantics
  import QuizGeneration

  type Json = QuizGeneration.Json
  type SessionReply = QuizGeneration.SessionReply

  const DefaultTitle := "Untitled Chat"
  const NotLoggedIn := "You must be logged in."
  const SaveFailed := "An unexpected error occurred while saving the chat."

  datatype ChatRow = ChatRow(userId: string, title: string, history: seq<Json>)

  /** What the database answers: the query ran (for an insert, with the id
      it assigned), it returned an error, or the call threw. */
  datatype DbReply = DbResponds(insertedId: string) | DbError | DbThrows

  datatype SaveResult = Saved(chatId: string) | SaveError(message: string)

  /** title || "Untitled Chat" */
  function ChatTitle(title: Option<string>): (t: string)
    ensures t != ""
    ensures !IsFalsy(title) ==> t == title.value
    ensures IsFalsy(title) ==> t == DefaultTitle
  {
    if IsFalsy(title) then DefaultTitle else title.value
  }

  /** The caller owns the row with this id. */
  predicate OwnsChat(chats: map<string, ChatRow>, id: string, user: string) {
    id in chats && chats[id].userId == user
  }

  /** saveChat({messages, title, chatId}) against the table: its result and
      the table afterwards. */
  function Save(chats: map<string, ChatRow>, messages: seq<Json>, title: Option<string>,
                chatId: Option<string>, session: SessionReply, db: DbReply)
    : (r: (SaveResult, map<string, ChatRow>))
    // without a user nothing is written
    ensures session.NoSession? ==> r == (SaveError(NotLoggedIn), chats)
    ensures session.SessionThrows? ==> r == (SaveError(SaveFailed), chats)
    // past the login test every failure is the generic one
    ensures session.Session? && r.0.SaveError? ==> r.0.message == SaveFailed
    ensures r.0.SaveError? ==> r.1 == chats
    // a saved chat holds the caller's id, the defaulted title and the messages
    ensures r.0.Saved? ==>
              && session.Session?
              && r.1 == chats[r.0.chatId := ChatRow(session.userId, ChatTitle(title), messages)]
    // a given id takes the update path, which only touches the caller's own row
    ensures !IsFalsy(chatId) ==>
              (r.0.Saved? <==> session.Session? && db.DbResponds? && OwnsChat(chats, chatId.value, session.userId))
    ensures !IsFalsy(chatId) && r.0.Saved? ==> r.0.chatId == chatId.value
    // no id inserts a row under the fresh id the database assigned
    ensures IsFalsy(chatId) ==>
              (r.0.Saved? <==> session.Session? && db.DbResponds? && db.insertedId !in chats)
    ensures IsFalsy(chatId) && r.0.Saved? ==> r.0.chatId == db.insertedId
    // rows of other users are never changed or removed
    ensures forall id :: id in chats && !(session.Session? && chats[id].userId == session.userId) ==>
              id in r.1 && r.1[id] == chats[id]
    ensures chats.Keys <= r.1.Keys
  {
    match session
    case NoSession => (SaveError(NotLoggedIn), chats)
    case SessionThrows => (SaveError(SaveFailed), chats)
    case Session(user) =>
      var row := ChatRow(user, ChatTitle(title), messages);
      match db
      case DbThrows => (SaveError(SaveFailed), chats)
      case DbError => (SaveError(SaveFailed), chats)
      case DbResponds(insertedId) =>
        if !IsFalsy(chatId) then
          // update ... eq("id", chatId) eq("user_id", user) ... single():
          // no matching row is an error, which is thrown and caught.
          if OwnsChat(chats, chatId.value, user) then (Saved(chatId.value), chats[chatId.value := row])
          else (SaveError(SaveFailed), chats)
        else if insertedId in chats then
          (SaveError(SaveFailed), chats)
        else
          (Saved(insertedId), chats[insertedId := row])
  }

  /** The chats table. */
  class ChatTable {
    var chats: map<string, ChatRow>

    constructor (initial: map<string, ChatRow>)
      ensures chats == initial
    {
      chats := initial;
    }

    method SaveChat(messages: seq<Json>, title: Option<string>, chatId: Option<string>,
                    session: SessionReply, db: DbReply)
      returns (result: SaveResult)
      modifies this
      ensures (result, chats) == Save(old(chats), messages, title, chatId, session, db)
      ensures result.Saved? ==> result.chatId in chats && chats[result.chatId].title != ""
    {
      if !session.Session? {
        result := if session.NoSession? then SaveError(NotLoggedIn) else SaveError(SaveFailed);
        return;
      }
      var user := session.userId;
      var row := ChatRow(user, ChatTitle(title), messages);
      var savedId: string;
      if !IsFalsy(chatId) {
        if !db.DbResponds? || !OwnsChat(chats, chatId.value, user) {
          result := SaveError(SaveFailed);
          return;
        }
        savedId := chatId.value;
      } else {
        if !db.DbResponds? || db.insertedId in chats {
          result := SaveError(SaveFailed);
          return;
        }
        savedId := db.insertedId;
      }
      chats := chats[savedId := row];
      result := Saved(savedId);
    }
  }

  /** Saving the same conversation twice under its id leaves the table as
      one save does. */
  lemma ResaveIsIdempotent(chats: map<string, ChatRow>, messages: seq<Json>, title: Option<string>,
                           id: string, user: string, db: DbReply)
    requires id != "" && OwnsChat(chats, id, user) && db.DbResponds?
    ensures var once := Save(chats, messages, title, Some(id), QuizGeneration.Session(user), db);
      once.0 == Saved(id)
      && Save(once.1, messages, title, Some(id), QuizGeneration.Session(user), db) == once
  {
    var row := ChatRow(user, ChatTitle(title), messages);
    var once := Save(chats, messages, title, Some(id), QuizGeneration.Session(user), db);
    assert once.1 == chats[id := row];
    assert OwnsChat(once.1, id, user);
    assert once.1[id := row] == once.1;
  }
}
