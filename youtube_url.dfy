/** The video id carried by a watch URL: the value of its `v` query parameter
    (`get_yt_video_id` in app.py). The URL's query component is the input here;
    splitting a URL into its components is not part of this model. */
module YouTubeUrl {
  import opened Outcomes

  /** Python's `str.split(sep)` for a one-character separator: the pieces
      between consecutive separators, so there is always at least one. */
  function Split(s: string, sep: char): (parts: seq<string>)
    ensures |parts| >= 1
    ensures forall k :: 0 <= k < |parts| ==> sep !in parts[k]
    ensures |parts| == 1 <==> sep !in s
    decreases |s|
  {
    if s == [] then [""]
    else
      var rest := Split(s[1..], sep);
      if s[0] == sep then [""] + rest
      else [[s[0]] + rest[0]] + rest[1..]
  }

  /** Python's `sep.join(parts)`. */
  function Join(parts: seq<string>, sep: char): string
    requires |parts| >= 1
    decreases |parts|
  {
    if |parts| == 1 then parts[0] else parts[0] + [sep] + Join(parts[1..], sep)
  }

  /** Splitting loses nothing: joining the pieces gives the text back. */
  lemma {:induction false} JoinSplit(s: string, sep: char)
    ensures Join(Split(s, sep), sep) == s
    decreases |s|
  {
    if s != [] {
      JoinSplit(s[1..], sep);
      var rest := Split(s[1..], sep);
      if s[0] != sep && |rest| > 1 {
        assert Split(s, sep)[1..] == rest[1..];
        assert s == [s[0]] + s[1..];
      }
    }
  }

  lemma {:induction false} SplitAfterPiece(w: string, sep: char, t: string)
    requires sep !in w
    ensures Split(w + [sep] + t, sep) == [w] + Split(t, sep)
    decreases |w|
  {
    if w == [] {
      assert (w + [sep] + t)[1..] == t;
    } else {
      assert (w + [sep] + t)[1..] == w[1..] + [sep] + t;
      SplitAfterPiece(w[1..], sep, t);
      assert [w[0]] + w[1..] == w;
    }
  }

  /** Joining pieces free of the separator and splitting again gives the pieces back. */
  lemma {:induction false} SplitJoin(parts: seq<string>, sep: char)
    requires |parts| >= 1
    requires forall k :: 0 <= k < |parts| ==> sep !in parts[k]
    ensures Split(Join(parts, sep), sep) == parts
    decreases |parts|
  {
    if |parts| == 1 {
      SplitWithoutSep(parts[0], sep);
    } else {
      SplitJoin(parts[1..], sep);
      SplitAfterPiece(parts[0], sep, Join(parts[1..], sep));
    }
  }

  lemma {:induction false} SplitWithoutSep(s: string, sep: char)
    requires sep !in s
    ensures Split(s, sep) == [s]
    decreases |s|
  {
    if s != [] {
      SplitWithoutSep(s[1..], sep);
      assert [s[0]] + s[1..] == s;
    }
  }

  /** `item.split("=")[0]`: the text before the first `=`. */
  function Key(item: string): string
  {
    Split(item, '=')[0]
  }

  /** `item.split("=")[1]`: the text between the first and the second `=`;
      the source indexes it without checking, so it exists only when the
      item contains `=`. */
  function Value(item: string): string
    requires '=' in item
  {
    Split(item, '=')[1]
  }

  /** An item `k=v` or `k=v=rest` has key `k` and value `v`. */
  lemma KeyValueOfItem(k: string, v: string, rest: string)
    requires '=' !in k && '=' !in v
    requires rest == [] || rest[0] == '='
    ensures '=' in k + "=" + v + rest
    ensures Key(k + "=" + v + rest) == k && Value(k + "=" + v + rest) == v
  {
    var item := k + ['='] + (v + rest);
    assert k + "=" + v + rest == item;
    assert item[|k|] == '=';
    SplitAfterPiece(k, '=', v + rest);
    var tail := Split(v + rest, '=');
    assert Split(item, '=') == [k] + tail;
    if rest == [] {
      assert v + rest == v;
      SplitWithoutSep(v, '=');
    } else {
      assert v + rest == v + ['='] + rest[1..];
      SplitAfterPiece(v, '=', rest[1..]);
    }
    assert tail[0] == v;
  }

  /** Why `get_yt_video_id` rejects a query. */
  datatype QueryError =
    | EmptyQuery        // the URL has no query component
    | ItemWithoutValue  // an `&`-separated item has no `=` (the IndexError of `split("=")[1]`)
    | NoVideoId         // no item has the key `v`

  /** The dictionary comprehension over the items, in order; a later item
      overwrites an earlier one with the same key, and the first item without
      `=` aborts the whole comprehension. */
  function QueryParams(items: seq<string>): (r: Result<map<string, string>, QueryError>)
    ensures r.Err? ==> r.error == ItemWithoutValue
    ensures r.Ok? ==> forall i :: 0 <= i < |items| ==> '=' in items[i]
    decreases |items|
  {
    if items == [] then Ok(map[])
    else
      var last := items[|items| - 1];
      match QueryParams(items[..|items| - 1])
      case Err(e) => Err(e)
      case Ok(m) => if '=' in last then Ok(m[Key(last) := Value(last)]) else Err(ItemWithoutValue)
  }

  /** The comprehension fails exactly when some item has no `=`, and then with
      the IndexError of that item. */
  lemma {:induction false} QueryParamsFails(items: seq<string>)
    ensures QueryParams(items).Err? <==> exists i :: 0 <= i < |items| && '=' !in items[i]
    ensures QueryParams(items).Err? ==> QueryParams(items).error == ItemWithoutValue
    decreases |items|
  {
    if items != [] {
      var n := |items| - 1;
      QueryParamsFails(items[..n]);
      assert forall i :: 0 <= i < n ==> items[..n][i] == items[i];
    }
  }

  /** When it succeeds, the keys are the items' keys. */
  lemma {:induction false} QueryParamsKeys(items: seq<string>, k: string)
    requires QueryParams(items).Ok?
    ensures k in QueryParams(items).value <==> exists i :: 0 <= i < |items| && Key(items[i]) == k
    decreases |items|
  {
    if items != [] {
      var n := |items| - 1;
      var prefix := items[..n];
      QueryParamsKeys(prefix, k);
      if exists i :: 0 <= i < n && Key(prefix[i]) == k {
        var i :| 0 <= i < n && Key(prefix[i]) == k;
        assert Key(items[i]) == k;
      }
      if exists i :: 0 <= i < |items| && Key(items[i]) == k {
        var i :| 0 <= i < |items| && Key(items[i]) == k;
        if i < n {
          assert Key(prefix[i]) == k;
        }
      }
    }
  }

  /** When it succeeds, a key is bound to the value of the LAST item carrying it. */
  lemma {:induction false} QueryParamsLastWins(items: seq<string>, i: nat)
    requires QueryParams(items).Ok?
    requires i < |items|
    requires forall j :: i < j < |items| ==> Key(items[j]) != Key(items[i])
    ensures '=' in items[i]
    ensures Key(items[i]) in QueryParams(items).value
    ensures QueryParams(items).value[Key(items[i])] == Value(items[i])
    decreases |items|
  {
    var n := |items| - 1;
    var prefix := items[..n];
    if i < n {
      assert prefix[i] == items[i];
      forall j | i < j < |prefix| ensures Key(prefix[j]) != Key(prefix[i]) {
        assert prefix[j] == items[j];
      }
      QueryParamsLastWins(prefix, i);
    }
  }

  /** `get_yt_video_id`, given the query component of the URL. */
  function VideoIdFromQuery(query: string): (r: Result<string, QueryError>)
    ensures r == Err(EmptyQuery) <==> query == []
    ensures r.Ok? ==> forall i :: 0 <= i < |Split(query, '&')| ==> '=' in Split(query, '&')[i]
  {
    if query == [] then Err(EmptyQuery)
    else
      match QueryParams(Split(query, '&'))
      case Err(e) => Err(e)
      case Ok(params) => if "v" in params then Ok(params["v"]) else Err(NoVideoId)
  }

  /** The `&`-separated items of a query. */
  function QueryItems(query: string): seq<string>
  {
    Split(query, '&')
  }

  /** The error cases of `get_yt_video_id` and the id it returns: empty query, an
      item without `=`, no `v` key; otherwise the value of the last `v=` item. */
  lemma VideoIdFromQueryMeaning(query: string)
    ensures VideoIdFromQuery(query) == Err(EmptyQuery) <==> query == []
    ensures query != [] ==>
      (VideoIdFromQuery(query) == Err(ItemWithoutValue) <==>
         exists i :: 0 <= i < |QueryItems(query)| && '=' !in QueryItems(query)[i])
    ensures query != [] && (forall i :: 0 <= i < |QueryItems(query)| ==> '=' in QueryItems(query)[i]) ==>
      (VideoIdFromQuery(query) == Err(NoVideoId) <==>
         forall i :: 0 <= i < |QueryItems(query)| ==> Key(QueryItems(query)[i]) != "v")
    ensures forall v :: VideoIdFromQuery(query) == Ok(v) <==>
      query != [] && IsLastVideoId(QueryItems(query), v)
  {
    var items := QueryItems(query);
    QueryParamsFails(items);
    if query != [] && QueryParams(items).Err? {
      assert VideoIdFromQuery(query) == Err(ItemWithoutValue);
    }
    if query != [] && QueryParams(items).Ok? {
      var m := QueryParams(items).value;
      QueryParamsKeys(items, "v");
      if "v" !in m {
        assert VideoIdFromQuery(query) == Err(NoVideoId);
      } else {
        assert VideoIdFromQuery(query) == Ok(m["v"]);
        var i :| 0 <= i < |items| && Key(items[i]) == "v";
        var last := LastWithKey(items, "v", i);
        QueryParamsLastWins(items, last);
        forall v ensures VideoIdFromQuery(query) == Ok(v) <==> IsLastVideoId(items, v) {
          if VideoIdFromQuery(query) == Ok(v) {
            assert Value(items[last]) == v;
          } else if IsLastVideoId(items, v) {
            var i :| 0 <= i < |items| && Key(items[i]) == "v" && Value(items[i]) == v &&
              forall j :: i < j < |items| ==> Key(items[j]) != "v";
            QueryParamsLastWins(items, i);
          }
        }
      }
    }
  }

  /** `v` is the value of the last item keyed `v`, and every item has a `=`. */
  ghost predicate IsLastVideoId(items: seq<string>, v: string)
  {
    (forall i :: 0 <= i < |items| ==> '=' in items[i]) &&
    exists i :: 0 <= i < |items| && Key(items[i]) == "v" && Value(items[i]) == v &&
      forall j :: i < j < |items| ==> Key(items[j]) != "v"
  }

  /** Some item from `from` on carries `key` and no later one does. */
  lemma {:induction false} LastWithKey(items: seq<string>, key: string, from: nat) returns (last: nat)
    requires from < |items| && Key(items[from]) == key
    ensures from <= last < |items| && Key(items[last]) == key
    ensures forall j :: last < j < |items| ==> Key(items[j]) != key
    decreases |items| - from
  {
    if exists j :: from < j < |items| && Key(items[j]) == key {
      var j :| from < j < |items| && Key(items[j]) == key;
      last := LastWithKey(items, key, j);
    } else {
      last := from;
    }
  }

  /** `str(e)` of the exception `get_yt_video_id` raises for `url`. */
  function ErrorText(e: QueryError, url: string): string
  {
    match e
    case EmptyQuery => url + " doesn't have a query param"
    case ItemWithoutValue => "list index out of range"
    case NoVideoId => "No video ID found in URL: " + url
  }
}
