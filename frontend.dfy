/** The browser-facing frontend's own logic: `flatten_list`, the query string
    `query_music_form` sends to the content service, and the list of songs
    the home page shows for the user's subscriptions (`get_subscriptions`).
    The HTTP calls to the content service become a function `lookup` from the
    query string to the records it answers with. */
module Frontend {
  import Strings

  /** `flatten_list`: the sublists one after another. The first sublist is
      a prefix, and every sublist's elements occur at least as often in the
      result as in that sublist. */
  function Concat<T>(xss: seq<seq<T>>): (r: seq<T>)
    ensures |xss| == 0 ==> r == []
    ensures |xss| > 0 ==> xss[0] <= r
    ensures forall i :: 0 <= i < |xss| ==> multiset(xss[i]) <= multiset(r)
  {
    if |xss| == 0 then [] else xss[0] + Concat(xss[1..])
  }

  function TotalLength<T>(xss: seq<seq<T>>): nat
  {
    if |xss| == 0 then 0 else |xss[0]| + TotalLength(xss[1..])
  }

  /** The flattened list is as long as all the sublists together. */
  lemma {:induction false} ConcatLength<T>(xss: seq<seq<T>>)
    ensures |Concat(xss)| == TotalLength(xss)
  {
    if |xss| > 0 {
      ConcatLength(xss[1..]);
    }
  }

  /** Flattening two lists of lists one after the other is flattening each. */
  lemma {:induction false} ConcatAppend<T>(xss: seq<seq<T>>, yss: seq<seq<T>>)
    ensures Concat(xss + yss) == Concat(xss) + Concat(yss)
  {
    if |xss| == 0 {
      assert xss + yss == yss;
    } else {
      assert (xss + yss)[1..] == xss[1..] + yss;
      ConcatAppend(xss[1..], yss);
    }
  }

  /** Flattening no lists, or only empty lists, gives the empty list. */
  lemma {:induction false} ConcatOfEmpties<T>(xss: seq<seq<T>>)
    requires forall i :: 0 <= i < |xss| ==> xss[i] == []
    ensures Concat(xss) == []
  {
    if |xss| > 0 {
      ConcatOfEmpties(xss[1..]);
    }
  }

  /** Every element of the flattened list comes from one of the sublists, and
      every element of a sublist is in the flattened list. */
  lemma {:induction false} ConcatMembers<T>(xss: seq<seq<T>>, x: T)
    ensures x in Concat(xss) <==> exists i :: 0 <= i < |xss| && x in xss[i]
  {
    if |xss| > 0 {
      ConcatMembers(xss[1..], x);
      if x in Concat(xss[1..]) {
        var i :| 0 <= i < |xss[1..]| && x in xss[1..][i];
        assert x in xss[i + 1];
      }
      if exists i :: 0 <= i < |xss| && x in xss[i] {
        var i :| 0 <= i < |xss| && x in xss[i];
        if i > 0 {
          assert x in xss[1..][i - 1];
        }
      }
    }
  }

  /** One `key=value` pair of a query string, written without escaping. */
  function Param(key: string, value: string): string
  {
    key + "=" + value
  }

  lemma TitleParam()
    ensures forall t :: Param("title", t) == "title=" + t
  {
  }

  /** The given (non-empty) fields as pairs, in the order title, artist, year. */
  function Params(title: string, artist: string, year: string): seq<string>
  {
    (if title != "" then [Param("title", title)] else [])
    + (if artist != "" then [Param("artist", artist)] else [])
    + (if year != "" then [Param("year", year)] else [])
  }

  /** `query_music_form`'s query string, built by successive `+=`: the pairs
      of the given fields joined by `&`, with a stray leading `&` whenever the
      title is empty and another field is given. */
  method QueryString(title: string, artist: string, year: string) returns (query: string)
    ensures query == (if title == "" && (artist != "" || year != "") then "&" else "")
                     + Strings.Join(Params(title, artist, year), "&")
    ensures title != "" <==> "title=" + title <= query
    ensures query == "" <==> title == "" && artist == "" && year == ""
  {
    query := "";
    if title != "" {
      query := query + Param("title", title);
    }
    if artist != "" {
      query := query + "&" + Param("artist", artist);
    }
    if year != "" {
      query := query + "&" + Param("year", year);
    }
    assert query == Assembled(title, artist, year);
    AssembledIsJoin(title, artist, year);
    AssembledPrefix(title, artist, year);
  }

  /** The query string as the three optional pieces `query_music_form` adds. */
  function Assembled(title: string, artist: string, year: string): string
  {
    (if title != "" then Param("title", title) else "")
    + (if artist != "" then "&" + Param("artist", artist) else "")
    + (if year != "" then "&" + Param("year", year) else "")
  }

  /** The pieces are the `&`-join of the given pairs, after a stray `&` when
      the title is missing. */
  lemma AssembledIsJoin(title: string, artist: string, year: string)
    ensures Assembled(title, artist, year)
            == (if title == "" && (artist != "" || year != "") then "&" else "")
               + Strings.Join(Params(title, artist, year), "&")
  {
  }

  /** The query starts with `title=<title>` exactly when a title is given,
      and is empty exactly when no field is. */
  lemma AssembledPrefix(title: string, artist: string, year: string)
    ensures title != "" <==> "title=" + title <= Assembled(title, artist, year)
    ensures Assembled(title, artist, year) == "" <==> title == "" && artist == "" && year == ""
  {
    var q := Assembled(title, artist, year);
    if title == "" {
      assert q == "" || q[0] == '&';
      assert ("title=" + title)[0] == 't';
    } else {
      var head := "title=" + title;
      assert q == head + (q[|head|..]);
    }
  }

  /** The records the content service answers for each subscribed title, one
      lookup per title in list order. */
  function Lookups<R>(titles: seq<string>, lookup: string -> seq<R>): (r: seq<seq<R>>)
    ensures |r| == |titles|
    ensures forall i :: 0 <= i < |titles| ==> r[i] == lookup("title=" + titles[i])
  {
    TitleParam();
    seq(|titles|, i requires 0 <= i < |titles| => lookup(Param("title", titles[i])))
  }

  /** `get_subscriptions`: fetch the records of every subscribed title in
      turn, then flatten the per-title lists. */
  method SubscribedMusic<R>(titles: seq<string>, lookup: string -> seq<R>) returns (music: seq<R>)
    ensures music == Concat(Lookups(titles, lookup))
    ensures |music| == TotalLength(Lookups(titles, lookup))
  {
    var subscriptionMusic: seq<seq<R>> := [];
    for i := 0 to |titles|
      invariant subscriptionMusic == Lookups(titles[..i], lookup)
    {
      subscriptionMusic := subscriptionMusic + [lookup(Param("title", titles[i]))];
    }
    assert titles[..|titles|] == titles;
    music := Concat(subscriptionMusic);
    ConcatLength(subscriptionMusic);
  }

  /** Subscribing to one more title adds that title's records at the end of
      the home page's list and leaves the records before them as they were. */
  lemma SubscribedMusicAfterAdd<R>(titles: seq<string>, title: string, lookup: string -> seq<R>)
    ensures Concat(Lookups(titles + [title], lookup))
            == Concat(Lookups(titles, lookup)) + lookup(Param("title", title))
  {
    assert Lookups(titles + [title], lookup) == Lookups(titles, lookup) + [lookup(Param("title", title))];
    ConcatAppend(Lookups(titles, lookup), [lookup(Param("title", title))]);
    assert Concat([lookup(Param("title", title))]) == lookup(Param("title", title)) + Concat([]);
  }
}
