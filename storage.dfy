/** services/storage.ts: a store of whole snapshots kept under two fixed
    localStorage keys. Every operation reads the snapshot it needs, edits
    it in place and writes the whole snapshot back. */
module Storage {
  import opened Types
  import History
  import Accounts

  const HISTORY_KEY: string := "iitm_buddy_history"
  const USERS_KEY: string := "iitm_buddy_users"

  /** What a localStorage key holds, seen through `JSON.parse`: a history
      list, an account list, the empty string (which `|| '[]'` reads as an
      empty list) or text `JSON.parse` rejects. Serialising a list and
      parsing it back gives the same list, so lists are stored as values. */
  datatype Entry =
    | HistoryList(items: seq<HistoryItem>)
    | UserList(accounts: seq<Accounts.Account>)
    | Blank
    | Unparsable

  /** `JSON.parse(localStorage.getItem(key) || '[]')` for the history key:
      a missing or empty key reads as the empty history, a stored history
      list as itself, anything else as a parse error. */
  function ReadHistory(entries: map<string, Entry>): (r: Result<seq<HistoryItem>>)
    ensures r.Err? <==> HISTORY_KEY in entries && !entries[HISTORY_KEY].HistoryList? && !entries[HISTORY_KEY].Blank?
    ensures r.Err? ==> r.error == MalformedSnapshot
    ensures HISTORY_KEY !in entries || entries[HISTORY_KEY].Blank? ==> r == Ok([])
    ensures HISTORY_KEY in entries && entries[HISTORY_KEY].HistoryList? ==> r == Ok(entries[HISTORY_KEY].items)
  {
    if HISTORY_KEY !in entries then Ok([])
    else match entries[HISTORY_KEY]
      case HistoryList(items) => Ok(items)
      case Blank => Ok([])
      case _ => Err(MalformedSnapshot)
  }

  /** `JSON.parse(localStorage.getItem(key) || '[]')` for the account key,
      with the same three outcomes. */
  function ReadUsers(entries: map<string, Entry>): (r: Result<seq<Accounts.Account>>)
    ensures r.Err? <==> USERS_KEY in entries && !entries[USERS_KEY].UserList? && !entries[USERS_KEY].Blank?
    ensures r.Err? ==> r.error == MalformedSnapshot
    ensures USERS_KEY !in entries || entries[USERS_KEY].Blank? ==> r == Ok([])
    ensures USERS_KEY in entries && entries[USERS_KEY].UserList? ==> r == Ok(entries[USERS_KEY].accounts)
  {
    if USERS_KEY !in entries then Ok([])
    else match entries[USERS_KEY]
      case UserList(accounts) => Ok(accounts)
      case Blank => Ok([])
      case _ => Err(MalformedSnapshot)
  }

  /** `after` differs from `before` at most under the history key. */
  predicate OnlyHistoryWritten(before: map<string, Entry>, after: map<string, Entry>) {
    after - {HISTORY_KEY} == before - {HISTORY_KEY}
  }

  /** A change confined to the history key leaves the account list as it was. */
  lemma OnlyHistoryWrittenKeepsUsers(before: map<string, Entry>, after: map<string, Entry>)
    requires OnlyHistoryWritten(before, after)
    ensures ReadUsers(after) == ReadUsers(before)
  {
    assert USERS_KEY != HISTORY_KEY;
    assert USERS_KEY in after <==> USERS_KEY in after - {HISTORY_KEY};
    assert USERS_KEY in before <==> USERS_KEY in before - {HISTORY_KEY};
    if USERS_KEY in after {
      assert after[USERS_KEY] == (after - {HISTORY_KEY})[USERS_KEY];
      assert before[USERS_KEY] == (before - {HISTORY_KEY})[USERS_KEY];
    }
  }

  /** The browser's localStorage as this service uses it. */
  class Store {
    var entries: map<string, Entry>

    constructor(initial: map<string, Entry>)
      ensures entries == initial
    {
      entries := initial;
    }

    /** `id` is used by no item of the (readable) stored history. */
    predicate IdIsFresh(id: string)
      reads this
    {
      ReadHistory(entries).Ok? ==> History.IsFreshId(ReadHistory(entries).value, id)
    }

    /** `getHistory`: the stored history; empty when nothing is stored, and
        the parse error when the stored text is not a history list. */
    method GetHistory() returns (r: Result<seq<HistoryItem>>)
      ensures r == ReadHistory(entries)
      ensures HISTORY_KEY !in entries ==> r == Ok([])
      ensures HISTORY_KEY in entries && entries[HISTORY_KEY].HistoryList? ==> r == Ok(entries[HISTORY_KEY].items)
      ensures HISTORY_KEY in entries && entries[HISTORY_KEY].Unparsable? ==> r == Err(MalformedSnapshot)
    {
      r := ReadHistory(entries);
    }

    /** `saveHistory`: a new record with the given id and time goes in front
        of the stored history, which is written back; the record is returned. */
    method SaveHistory(question: string, analysis: AnalysisResult, id: string, now: int) returns (r: Result<HistoryItem>)
      requires IdIsFresh(id)
      modifies this
      ensures OnlyHistoryWritten(old(entries), entries)
      ensures old(ReadHistory(entries)).Err? ==> r == Err(old(ReadHistory(entries)).error) && entries == old(entries)
      ensures old(ReadHistory(entries)).Ok? ==>
                && r.Ok? && r.value.id == id && r.value.question == question && r.value.analysis == analysis
                && r.value.tags == [analysis.concept] && r.value.timestamp == now && r.value.feedback == None
                && entries == old(entries)[HISTORY_KEY := HistoryList([r.value] + old(ReadHistory(entries)).value)]
                && ReadHistory(entries) == Ok([r.value] + old(ReadHistory(entries)).value)
      ensures old(ReadHistory(entries)).Ok? && History.UniqueIds(old(ReadHistory(entries)).value) ==>
                History.UniqueIds(ReadHistory(entries).value)
      ensures old(ReadHistory(entries)).Ok? && History.TagsUnique(old(ReadHistory(entries)).value) ==>
                History.TagsUnique(ReadHistory(entries).value)
    {
      var read := GetHistory();
      if read.Err? {
        return Err(read.error);
      }
      var history := read.value;
      var newItem := History.NewItem(id, question, analysis, now);
      history := [newItem] + history;
      entries := entries[HISTORY_KEY := HistoryList(history)];
      r := Ok(newItem);
    }

    /** `addTag`: appends `newTag` to the first item with `itemId` if it lacks
        it, and writes the snapshot back only then; returns the history. */
    method AddTag(itemId: string, newTag: string) returns (r: Result<seq<HistoryItem>>)
      modifies this
      ensures OnlyHistoryWritten(old(entries), entries)
      ensures old(ReadHistory(entries)).Err? ==> r == old(ReadHistory(entries)) && entries == old(entries)
      ensures old(ReadHistory(entries)).Ok? ==>
                var h := old(ReadHistory(entries)).value;
                var found := History.FirstIndex(h, itemId);
                && r == Ok(History.AddTag(h, itemId, newTag))
                && entries == if found.Some? && newTag !in h[found.value].tags
                              then old(entries)[HISTORY_KEY := HistoryList(r.value)]
                              else old(entries)
    {
      r := GetHistory();
      if r.Err? {
        return;
      }
      var history := r.value;
      var found := History.FirstIndex(history, itemId);
      if found.Some? && newTag !in history[found.value].tags {
        var i := found.value;
        history := history[i := history[i].(tags := history[i].tags + [newTag])];
        entries := entries[HISTORY_KEY := HistoryList(history)];
      }
      r := Ok(history);
    }

    /** `removeTag`: filters `tagToRemove` out of the tags of the first item
        with `itemId` and writes the snapshot back whenever the item exists. */
    method RemoveTag(itemId: string, tagToRemove: string) returns (r: Result<seq<HistoryItem>>)
      modifies this
      ensures OnlyHistoryWritten(old(entries), entries)
      ensures old(ReadHistory(entries)).Err? ==> r == old(ReadHistory(entries)) && entries == old(entries)
      ensures old(ReadHistory(entries)).Ok? ==>
                var h := old(ReadHistory(entries)).value;
                && r == Ok(History.RemoveTag(h, itemId, tagToRemove))
                && entries == if History.FirstIndex(h, itemId).Some?
                              then old(entries)[HISTORY_KEY := HistoryList(r.value)]
                              else old(entries)
    {
      r := GetHistory();
      if r.Err? {
        return;
      }
      var history := r.value;
      var found := History.FirstIndex(history, itemId);
      if found.Some? {
        var i := found.value;
        history := history[i := history[i].(tags := History.Without(history[i].tags, tagToRemove))];
        entries := entries[HISTORY_KEY := HistoryList(history)];
      }
      r := Ok(history);
    }

    /** `submitFeedback`: sets the feedback of the first item with `itemId`,
        replacing any earlier one; nothing is written when no item has that id. */
    method SubmitFeedback(itemId: string, feedback: Feedback) returns (r: Result<()>)
      modifies this
      ensures OnlyHistoryWritten(old(entries), entries)
      ensures old(ReadHistory(entries)).Err? ==> r == Err(MalformedSnapshot) && entries == old(entries)
      ensures old(ReadHistory(entries)).Ok? ==>
                var h := old(ReadHistory(entries)).value;
                && r == Ok(())
                && entries == if History.FirstIndex(h, itemId).Some?
                              then old(entries)[HISTORY_KEY := HistoryList(History.SetFeedback(h, itemId, feedback))]
                              else old(entries)
    {
      var read := GetHistory();
      if read.Err? {
        return Err(read.error);
      }
      var history := read.value;
      var found := History.FirstIndex(history, itemId);
      if found.Some? {
        var i := found.value;
        history := history[i := history[i].(feedback := Some(feedback))];
        entries := entries[HISTORY_KEY := HistoryList(history)];
      }
      r := Ok(());
    }

    /** The parsed account list, as `login` and `signup` read it. */
    method GetUsers() returns (r: Result<seq<Accounts.Account>>)
      ensures r == ReadUsers(entries)
      ensures USERS_KEY !in entries ==> r == Ok([])
    {
      r := ReadUsers(entries);
    }

    /** `login`: succeeds exactly when a stored account matches both the email
        and the password; reads the store and changes nothing. */
    method Login(email: string, password: string) returns (r: Result<User>)
      ensures ReadUsers(entries).Err? ==> r == Err(MalformedSnapshot)
      ensures ReadUsers(entries).Ok? ==> r == Accounts.Login(ReadUsers(entries).value, email, password)
    {
      var read := GetUsers();
      if read.Err? {
        return Err(read.error);
      }
      var users := read.value;
      var found := Accounts.FindAccount(users, email, password);
      if found.None? {
        return Err(InvalidCredentials);
      }
      var user := users[found.value];
      r := Ok(User(user.name, user.email));
    }

    /** `signup`: fails when the email is in use; otherwise appends the
        account, writes the account list back and returns the new user. */
    method Signup(email: string, name: string, password: string) returns (r: Result<User>)
      modifies this
      ensures ReadUsers(old(entries)).Err? ==> r == Err(MalformedSnapshot) && entries == old(entries)
      ensures ReadUsers(old(entries)).Ok? ==>
                var users := ReadUsers(old(entries)).value;
                match Accounts.Signup(users, email, name, password)
                case Err(e) => r == Err(e) && entries == old(entries)
                case Ok((after, user)) => r == Ok(user) && entries == old(entries)[USERS_KEY := UserList(after)]
    {
      var read := GetUsers();
      if read.Err? {
        return Err(read.error);
      }
      var users := read.value;
      if Accounts.EmailTaken(users, email) {
        return Err(UserAlreadyExists);
      }
      users := users + [Accounts.Account(email, name, password)];
      entries := entries[USERS_KEY := UserList(users)];
      r := Ok(User(name, email));
    }
  }

  /** The history key and the account key are independent: writing one never
      changes what the other reads. */
  lemma KeysIndependent(entries: map<string, Entry>, h: seq<HistoryItem>, users: seq<Accounts.Account>)
    ensures ReadUsers(entries[HISTORY_KEY := HistoryList(h)]) == ReadUsers(entries)
    ensures ReadHistory(entries[USERS_KEY := UserList(users)]) == ReadHistory(entries)
  {
  }
}
