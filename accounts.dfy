/** The account service: the `Accounts` table, keyed by email, and the login,
    registration and subscription-list handlers that read and update it.
    The table is held in memory as a map; each handler's `get_item`,
    `put_item` and `update_item` become a lookup in, or an update of, that map. */
module Accounts {
  import opened Outcomes

  /** One item of the `Accounts` table. */
  datatype Account = Account(email: string, password: string, username: string, subscriptions: seq<string>)

  /** What `register` answers on success: the email and the username only. */
  datatype Summary = Summary(email: string, username: string)

  /** What `add_subscription` answers on success. */
  datatype Subscribed = Subscribed(email: string, subscriptions: seq<string>)

  /** Every item is stored under its own email. */
  ghost predicate KeyedByEmail(table: map<string, Account>)
  {
    forall e :: e in table ==> table[e].email == e
  }

  /** DynamoDB refuses an empty string as the value of a key attribute: a
      `get_item` with `{"email": ""}` raises a validation error, which no
      handler catches, so FastAPI answers 500. */
  predicate RejectedKey(email: string)
  {
    email == ""
  }

  /** Python's `list.index(x)`: the position of the first occurrence of `x`,
      or None where Python raises ValueError. */
  function IndexOf(s: seq<string>, x: string): (r: Option<nat>)
    ensures r.Some? <==> x in s
    ensures r.Some? ==> r.value < |s| && s[r.value] == x
    ensures r.Some? ==> forall j :: 0 <= j < r.value ==> s[j] != x
  {
    if |s| == 0 then None
    else if s[0] == x then Some(0)
    else match IndexOf(s[1..], x)
      case None => None
      case Some(i) => Some(i + 1)
  }

  /** The list after DynamoDB's `REMOVE subscriptions[i]`: the element at `i`
      is gone and every other element keeps its order. */
  function RemoveAt(s: seq<string>, i: nat): (r: seq<string>)
    requires i < |s|
    ensures |r| == |s| - 1
    ensures forall k :: 0 <= k < i ==> r[k] == s[k]
    ensures forall k :: i <= k < |r| ==> r[k] == s[k + 1]
    ensures multiset(r) + multiset{s[i]} == multiset(s)
  {
    assert s == s[..i] + [s[i]] + s[i + 1..];
    s[..i] + s[i + 1..]
  }

  /** Reference definition of "the list without the first occurrence of x",
      written without positions. */
  function RemoveFirst(s: seq<string>, x: string): seq<string>
  {
    if |s| == 0 then []
    else if s[0] == x then s[1..]
    else [s[0]] + RemoveFirst(s[1..], x)
  }

  /** Removing at the index `list.index` finds is removing the first occurrence. */
  lemma {:induction false} RemoveAtIndexOfIsRemoveFirst(s: seq<string>, x: string)
    requires x in s
    ensures RemoveAt(s, IndexOf(s, x).value) == RemoveFirst(s, x)
  {
    if s[0] != x {
      var tail := s[1..];
      assert x in tail;
      var i := IndexOf(tail, x).value;
      assert IndexOf(s, x) == Some(i + 1);
      calc {
        RemoveAt(s, i + 1);
        s[..i + 1] + s[i + 2..];
        { assert s[..i + 1] == [s[0]] + tail[..i]; assert s[i + 2..] == tail[i + 1..]; }
        [s[0]] + (tail[..i] + tail[i + 1..]);
        [s[0]] + RemoveAt(tail, i);
        { RemoveAtIndexOfIsRemoveFirst(tail, x); }
        [s[0]] + RemoveFirst(tail, x);
      }
    }
  }

  /** Removing a title that was just appended, and that was not there before,
      gives back the list as it was: delete undoes add. */
  lemma {:induction false} RemoveFirstUndoesAppend(s: seq<string>, x: string)
    requires x !in s
    ensures RemoveFirst(s + [x], x) == s
  {
    if |s| > 0 {
      assert (s + [x])[1..] == s[1..] + [x];
      RemoveFirstUndoesAppend(s[1..], x);
    }
  }

  /** Appending after an earlier occurrence does not change which element a
      removal takes: the new entry stays at the end. */
  lemma {:induction false} RemoveFirstAfterAppend(s: seq<string>, x: string, y: string)
    requires x in s
    ensures RemoveFirst(s + [y], x) == RemoveFirst(s, x) + [y]
  {
    if s[0] != x {
      assert (s + [y])[1..] == s[1..] + [y];
      RemoveFirstAfterAppend(s[1..], x, y);
    }
  }

  /** Two removals give the same list in either order. */
  lemma {:induction false} RemoveFirstCommutes(s: seq<string>, x: string, y: string)
    ensures RemoveFirst(RemoveFirst(s, x), y) == RemoveFirst(RemoveFirst(s, y), x)
  {
    if |s| > 0 && s[0] != x && s[0] != y {
      RemoveFirstCommutes(s[1..], x, y);
    }
  }

  class AccountTable {
    /** The `Accounts` table: email -> item. */
    var accounts: map<string, Account>

    ghost predicate Valid()
      reads this
    {
      KeyedByEmail(accounts) && (forall e :: e in accounts ==> !RejectedKey(e))
    }

    constructor ()
      ensures Valid() && accounts == map[]
    {
      accounts := map[];
    }

    /** `login`: the stored item when the password matches exactly. An unknown
        email and a wrong password give the same 404. */
    method Login(email: Option<string>, password: Option<string>) returns (r: Reply<Account>)
      requires Valid()
      ensures r.Ok? <==> email.Some? && password.Some? && email.value in accounts
                         && accounts[email.value].password == password.value
      ensures r.Ok? ==> r.value == accounts[email.value] && r.value.email == email.value
      ensures r.Fail? ==> r.status == if email.None? || password.None? then BadRequest
                                      else if RejectedKey(email.value) then ServerError
                                      else NotFound
    {
      if email.None? || password.None? {
        return Fail(BadRequest);
      }
      if RejectedKey(email.value) {
        return Fail(ServerError);
      }
      var found := email.value in accounts;
      if !found || accounts[email.value].password != password.value {
        return Fail(NotFound);
      }
      r := Ok(accounts[email.value]);
    }

    /** `register`: a new item under the email, unless that email is taken. */
    method Register(email: Option<string>, password: Option<string>, username: Option<string>,
                    subscription: seq<string>)
      returns (r: Reply<Summary>)
      requires Valid()
      modifies this
      ensures Valid()
      ensures email.None? || password.None? || username.None? ==>
                r == Fail(BadRequest) && accounts == old(accounts)
      ensures email.Some? && password.Some? && username.Some? && RejectedKey(email.value) ==>
                r == Fail(ServerError) && accounts == old(accounts)
      ensures email.Some? && password.Some? && username.Some? && email.value in old(accounts) ==>
                r == Fail(Conflict) && accounts == old(accounts)
      ensures email.Some? && password.Some? && username.Some? && !RejectedKey(email.value)
              && email.value !in old(accounts) ==>
                && r == Ok(Summary(email.value, username.value))
                && accounts.Keys == old(accounts).Keys + {email.value}
                && accounts[email.value] == Account(email.value, password.value, username.value, subscription)
                && (forall e :: e in old(accounts) ==> accounts[e] == old(accounts)[e])
    {
      if email.None? || password.None? || username.None? {
        return Fail(BadRequest);
      }
      if RejectedKey(email.value) {
        return Fail(ServerError);
      }
      if email.value in accounts {
        return Fail(Conflict);
      }
      accounts := accounts[email.value := Account(email.value, password.value, username.value, subscription)];
      r := Ok(Summary(email.value, username.value));
    }

    /** `get_subscriptions`: the stored list, exactly. */
    method GetSubscriptions(email: Option<string>) returns (r: Reply<seq<string>>)
      requires Valid()
      ensures email.None? ==> r == Fail(BadRequest)
      ensures email.Some? && RejectedKey(email.value) ==> r == Fail(ServerError)
      ensures email.Some? && !RejectedKey(email.value) && email.value !in accounts ==> r == Fail(NotFound)
      ensures email.Some? && email.value in accounts ==> r == Ok(accounts[email.value].subscriptions)
    {
      if email.None? {
        return Fail(BadRequest);
      }
      if RejectedKey(email.value) {
        return Fail(ServerError);
      }
      if email.value !in accounts {
        return Fail(NotFound);
      }
      r := Ok(accounts[email.value].subscriptions);
    }

    /** `add_subscription`: appends the title to the stored list and echoes
        the list as it now is. */
    method AddSubscription(email: Option<string>, title: Option<string>) returns (r: Reply<Subscribed>)
      requires Valid()
      modifies this
      ensures Valid()
      ensures accounts.Keys == old(accounts).Keys
      ensures forall e :: e in old(accounts) && (email.None? || e != email.value) ==>
                accounts[e] == old(accounts)[e]
      ensures email.None? || title.None? ==> r == Fail(BadRequest) && accounts == old(accounts)
      ensures email.Some? && title.Some? && RejectedKey(email.value) ==>
                r == Fail(ServerError) && accounts == old(accounts)
      ensures email.Some? && title.Some? && !RejectedKey(email.value) && email.value !in old(accounts) ==>
                r == Fail(NotFound) && accounts == old(accounts)
      ensures email.Some? && title.Some? && email.value in old(accounts) ==>
                && accounts[email.value] == old(accounts)[email.value].(
                     subscriptions := old(accounts)[email.value].subscriptions + [title.value])
                && r == Ok(Subscribed(email.value, accounts[email.value].subscriptions))
    {
      if email.None? || title.None? {
        return Fail(BadRequest);
      }
      if RejectedKey(email.value) {
        return Fail(ServerError);
      }
      if email.value !in accounts {
        return Fail(NotFound);
      }
      var item := accounts[email.value];
      accounts := accounts[email.value := item.(subscriptions := item.subscriptions + [title.value])];
      r := Ok(Subscribed(email.value, item.subscriptions + [title.value]));
    }

    /** `delete_subscription`: removes the element at the first index of the
        title. A title that is not in the list makes `list.index` raise before
        any update is issued. */
    method DeleteSubscription(email: Option<string>, title: Option<string>) returns (r: Reply<()>)
      requires Valid()
      modifies this
      ensures Valid()
      ensures accounts.Keys == old(accounts).Keys
      ensures forall e :: e in old(accounts) && (email.None? || e != email.value) ==>
                accounts[e] == old(accounts)[e]
      ensures email.None? || title.None? ==> r == Fail(BadRequest) && accounts == old(accounts)
      ensures email.Some? && title.Some? && RejectedKey(email.value) ==>
                r == Fail(ServerError) && accounts == old(accounts)
      ensures email.Some? && title.Some? && !RejectedKey(email.value) && email.value !in old(accounts) ==>
                r == Fail(NotFound) && accounts == old(accounts)
      ensures email.Some? && title.Some? && email.value in old(accounts)
              && title.value !in old(accounts)[email.value].subscriptions ==>
                r == Fail(ServerError) && accounts == old(accounts)
      ensures email.Some? && title.Some? && email.value in old(accounts)
              && title.value in old(accounts)[email.value].subscriptions ==>
                var before := old(accounts)[email.value].subscriptions;
                var i := IndexOf(before, title.value).value;
                && r == Ok(())
                && accounts[email.value] == old(accounts)[email.value].(subscriptions := RemoveAt(before, i))
                && before[i] == title.value && (forall j :: 0 <= j < i ==> before[j] != title.value)
    {
      if email.None? || title.None? {
        return Fail(BadRequest);
      }
      if RejectedKey(email.value) {
        return Fail(ServerError);
      }
      if email.value !in accounts {
        return Fail(NotFound);
      }
      var item := accounts[email.value];
      var index := IndexOf(item.subscriptions, title.value);
      if index.None? {
        return Fail(ServerError);
      }
      accounts := accounts[email.value := item.(subscriptions := RemoveAt(item.subscriptions, index.value))];
      r := Ok(());
    }
  }

  /** The register / add / add / remove / remove walk-through, checked from
      the handlers' contracts alone. */
  method Walkthrough()
  {
    var table := new AccountTable();
    var who := Some("a@x.com");
    var summary := table.Register(who, Some("p"), Some("alice"), []);
    assert summary == Ok(Summary("a@x.com", "alice"));
    var added := table.AddSubscription(who, Some("Song1"));
    assert [] + ["Song1"] == ["Song1"];
    assert added == Ok(Subscribed("a@x.com", ["Song1"]));
    added := table.AddSubscription(who, Some("Song2"));
    assert ["Song1"] + ["Song2"] == ["Song1", "Song2"];
    assert added == Ok(Subscribed("a@x.com", ["Song1", "Song2"]));
    assert IndexOf(["Song1", "Song2"], "Song1") == Some(0);
    var removed := table.DeleteSubscription(who, Some("Song1"));
    assert removed == Ok(());
    assert RemoveAt(["Song1", "Song2"], 0) == ["Song2"];
    var listed := table.GetSubscriptions(who);
    assert listed == Ok(["Song2"]);
    removed := table.DeleteSubscription(who, Some("Song1"));
    assert removed == Fail(ServerError);
    var login := table.Login(who, Some("P"));
    assert login == Fail(NotFound);
    var blank := table.Register(Some(""), Some("p"), Some("bob"), []);
    assert blank == Fail(ServerError);
  }
}
