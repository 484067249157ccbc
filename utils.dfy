/**
 The fixture reference-resolution helpers of utils/index.js.

 `CreateRefObj` folds a sequence of fixture records, position by position,
 into a lookup object from a natural key (a username, an article title) to the
 identifier the store generated for the document at the same position.
 `FormatArticleData` and `FormatCommentData` copy fixture records and replace
 their natural-key references with the identifiers found in such lookup objects.
 All three are pure: every write goes to a fresh accumulator or copy, so the
 inputs are values here and cannot change.
 */
module Utils {
  import opened JsObjects

  // ---------------------------------------------------------------------------
  // createRefObj
  // ---------------------------------------------------------------------------

  /** The key under which position `i` of `data` is filed: `datum[property]`
      turned into a property key. */
  function KeyAt(data: seq<Record>, property: string, i: nat): string
    requires i < |data|
  {
    ToKey(Get(data[i], property))
  }

  /** The identifier of the stored document at position `i`: `docs[i]._id`. */
  function IdAt(docs: seq<Record>, i: nat): Value
    requires i < |docs|
  {
    Get(docs[i], "_id")
  }

  /** No later position of `data` is filed under the same key as position `i`,
      so the entry written for `i` is the one that survives the fold. */
  ghost predicate LastWith(data: seq<Record>, property: string, i: nat)
    requires i < |data|
  {
    forall j :: i < j < |data| ==> KeyAt(data, property, j) != KeyAt(data, property, i)
  }

  /** The keys filed by positions `from` onward. */
  ghost function KeysFrom(data: seq<Record>, property: string, from: nat): set<string>
    requires from <= |data|
  {
    set i | from <= i < |data| :: KeyAt(data, property, i)
  }

  /** The reduce callback applied from position `index` onward to the
      accumulator `refObj`; reading `docs[index]._id` past the end of `docs`
      throws. */
  function Reduce(refObj: Record, data: seq<Record>, docs: seq<Record>, property: string, index: nat): Result<Record>
    requires index <= |data|
    decreases |data| - index
  {
    if index == |data| then Ok(refObj)
    else if index >= |docs| then TypeError
    else Reduce(refObj[KeyAt(data, property, index) := IdAt(docs, index)], data, docs, property, index + 1)
  }

  /** What the fold leaves behind once every position from `index` on has been
      written into `refObj`. */
  lemma {:induction false} ReduceFolds(refObj: Record, data: seq<Record>, docs: seq<Record>, property: string, index: nat)
    requires index <= |data| <= |docs|
    ensures Reduce(refObj, data, docs, property, index).Ok?
    ensures Reduce(refObj, data, docs, property, index).value.Keys == refObj.Keys + KeysFrom(data, property, index)
    ensures forall i :: index <= i < |data| && LastWith(data, property, i) ==>
              Reduce(refObj, data, docs, property, index).value[KeyAt(data, property, i)] == IdAt(docs, i)
    ensures forall k :: k in refObj && k !in KeysFrom(data, property, index) ==>
              Reduce(refObj, data, docs, property, index).value[k] == refObj[k]
    decreases |data| - index
  {
    if index < |data| {
      var key := KeyAt(data, property, index);
      var next := refObj[key := IdAt(docs, index)];
      ReduceFolds(next, data, docs, property, index + 1);
      assert KeysFrom(data, property, index) == {key} + KeysFrom(data, property, index + 1);
      var r := Reduce(next, data, docs, property, index + 1).value;
      forall i | index <= i < |data| && LastWith(data, property, i)
        ensures r[KeyAt(data, property, i)] == IdAt(docs, i)
      {
        if i == index {
          assert key !in KeysFrom(data, property, index + 1);
        }
      }
    }
  }

  /** The fold throws as soon as it reaches a position that `docs` lacks. */
  lemma {:induction false} ReduceThrows(refObj: Record, data: seq<Record>, docs: seq<Record>, property: string, index: nat)
    requires index <= |docs| < |data|
    ensures Reduce(refObj, data, docs, property, index) == TypeError
    decreases |data| - index
  {
    if index < |docs| {
      ReduceThrows(refObj[KeyAt(data, property, index) := IdAt(docs, index)], data, docs, property, index + 1);
    }
  }

  /** `createRefObj(data, docs, property)`: the lookup object from each
      record's `property` to the `_id` of the document at the same position.
      It succeeds exactly when `docs` covers `data`; its keys are exactly the
      keys of `data`; and each key maps to the `_id` at the last position
      filed under it. */
  function CreateRefObj(data: seq<Record>, docs: seq<Record>, property: string): (r: Result<Record>)
    ensures r.Ok? <==> |data| <= |docs|
    ensures r.Ok? ==> r.value.Keys == KeysFrom(data, property, 0)
    ensures r.Ok? ==> forall i :: 0 <= i < |data| && LastWith(data, property, i) ==>
              r.value[KeyAt(data, property, i)] == IdAt(docs, i)
  {
    if |data| <= |docs| then ReduceFolds(map[], data, docs, property, 0); Reduce(map[], data, docs, property, 0)
    else ReduceThrows(map[], data, docs, property, 0); Reduce(map[], data, docs, property, 0)
  }

  /** With no fixtures the lookup object is `{}`, whatever `docs` holds. */
  lemma CreateRefObjEmpty(docs: seq<Record>, property: string)
    ensures CreateRefObj([], docs, property) == Ok(map[])
  {
  }

  /** Every position of `data` shares its key with a position, at or after it,
      whose entry survives the fold. */
  lemma {:induction false} LastWithExists(data: seq<Record>, property: string, i: nat)
    requires i < |data|
    ensures exists j :: i <= j < |data| && KeyAt(data, property, j) == KeyAt(data, property, i) && LastWith(data, property, j)
    decreases |data| - i
  {
    if !LastWith(data, property, i) {
      var j :| i < j < |data| && KeyAt(data, property, j) == KeyAt(data, property, i);
      LastWithExists(data, property, j);
    }
  }

  /** Whatever position a key is filed from, its entry is the `_id` of the
      last position filed under that key. */
  lemma RefObjEntry(data: seq<Record>, docs: seq<Record>, property: string, i: nat)
    requires i < |data| <= |docs|
    ensures exists j :: i <= j < |data| && KeyAt(data, property, j) == KeyAt(data, property, i) && LastWith(data, property, j) &&
              CreateRefObj(data, docs, property).value[KeyAt(data, property, i)] == IdAt(docs, j)
  {
    LastWithExists(data, property, i);
  }

  /** A key filed more than once maps to the `_id` of its last position: the
      left-to-right reduce overwrites earlier entries. */
  lemma LastWriteWins(data: seq<Record>, docs: seq<Record>, property: string, i: nat, j: nat)
    requires i < j < |data| <= |docs|
    requires KeyAt(data, property, i) == KeyAt(data, property, j)
    requires LastWith(data, property, j)
    ensures CreateRefObj(data, docs, property).value[KeyAt(data, property, i)] == IdAt(docs, j)
  {
  }

  /** The fold reads `docs` only at the positions it visits. */
  lemma {:induction false} ReduceIgnoresTail(refObj: Record, data: seq<Record>, docs: seq<Record>, extra: seq<Record>, property: string, index: nat)
    requires index <= |data| <= |docs|
    ensures Reduce(refObj, data, docs + extra, property, index) == Reduce(refObj, data, docs, property, index)
    decreases |data| - index
  {
    if index < |data| {
      assert IdAt(docs + extra, index) == IdAt(docs, index);
      ReduceIgnoresTail(refObj[KeyAt(data, property, index) := IdAt(docs, index)], data, docs, extra, property, index + 1);
    }
  }

  /** Documents past the end of `data` are never read. */
  lemma TrailingDocsIgnored(data: seq<Record>, docs: seq<Record>, extra: seq<Record>, property: string)
    requires |data| <= |docs|
    ensures CreateRefObj(data, docs + extra, property) == CreateRefObj(data, docs, property)
  {
    ReduceIgnoresTail(map[], data, docs, extra, property, 0);
  }

  /** When every key is filed once, the lookup object pins down the `_id` at
      every position of `docs`: pairing the fixtures with the documents in any
      other order that moves an `_id` yields a different lookup object. */
  lemma RefObjDeterminesIds(data: seq<Record>, docs1: seq<Record>, docs2: seq<Record>, property: string)
    requires forall i :: 0 <= i < |data| ==> LastWith(data, property, i)
    requires CreateRefObj(data, docs1, property).Ok?
    requires CreateRefObj(data, docs1, property) == CreateRefObj(data, docs2, property)
    ensures forall i :: 0 <= i < |data| ==> IdAt(docs1, i) == IdAt(docs2, i)
  {
  }

  // ---------------------------------------------------------------------------
  // formatArticleData
  // ---------------------------------------------------------------------------

  /** `after` is `before` with `topic` renamed to `belongs_to` (same value),
      `created_by` replaced by what `userRefs` holds under its key, and every
      other property kept as it was. */
  ghost predicate ArticleFormatted(before: Record, after: Record, userRefs: Record)
  {
    && "topic" in before
    && "topic" !in after
    && "belongs_to" in after && after["belongs_to"] == before["topic"]
    && "created_by" in after && after["created_by"] == Get(userRefs, ToKey(Get(before, "created_by")))
    && forall k :: k != "topic" && k != "belongs_to" && k != "created_by" ==>
         (k in after <==> k in before) && (k in before ==> after[k] == before[k])
  }

  /** The callback of `formatArticleData` on one record: a spread copy whose
      `topic` property is moved to `belongs_to` and whose `created_by` username
      is looked up in `userRefs`. Copying the property descriptor of a missing
      `topic` throws. */
  function FormatArticle(article: Record, userRefs: Record): (r: Result<Record>)
    ensures r.Ok? <==> "topic" in article
    ensures r.Ok? ==> ArticleFormatted(article, r.value, userRefs)
  {
    if "topic" !in article then TypeError
    else
      var copy := article;
      var renamed := copy["belongs_to" := copy["topic"]] - {"topic"};
      Ok(renamed["created_by" := Get(userRefs, ToKey(Get(renamed, "created_by")))])
  }

  /** The formatted record is determined by the input: nothing outside the
      three named properties differs. */
  lemma ArticleFormattedUnique(before: Record, x: Record, y: Record, userRefs: Record)
    requires ArticleFormatted(before, x, userRefs) && ArticleFormatted(before, y, userRefs)
    ensures x == y
  {
  }

  /** `formatArticleData(articleData, userRefs)`: one formatted copy per
      fixture, in order; it throws exactly when some fixture lacks `topic`. */
  function FormatArticleData(articleData: seq<Record>, userRefs: Record): (r: Result<seq<Record>>)
    ensures r.Ok? <==> forall i :: 0 <= i < |articleData| ==> "topic" in articleData[i]
    ensures r.Ok? ==> |r.value| == |articleData|
    ensures r.Ok? ==> forall i :: 0 <= i < |articleData| ==> ArticleFormatted(articleData[i], r.value[i], userRefs)
  {
    if articleData == [] then Ok([])
    else
      match FormatArticle(articleData[0], userRefs)
      case TypeError => TypeError
      case Ok(first) =>
        match FormatArticleData(articleData[1..], userRefs)
        case TypeError => TypeError
        case Ok(rest) => Ok([first] + rest)
  }

  // ---------------------------------------------------------------------------
  // formatCommentData
  // ---------------------------------------------------------------------------

  /** `after` is `before` with `created_by` looked up in `userRefs`,
      `belongs_to` looked up in `articleRefs`, and every other property kept. */
  ghost predicate CommentFormatted(before: Record, after: Record, userRefs: Record, articleRefs: Record)
  {
    && "created_by" in after && after["created_by"] == Get(userRefs, ToKey(Get(before, "created_by")))
    && "belongs_to" in after && after["belongs_to"] == Get(articleRefs, ToKey(Get(before, "belongs_to")))
    && forall k :: k != "created_by" && k != "belongs_to" ==>
         (k in after <==> k in before) && (k in before ==> after[k] == before[k])
  }

  /** The callback of `formatCommentData` on one record: a spread copy whose
      `created_by` and `belongs_to` are replaced through the lookup objects. */
  function FormatComment(comment: Record, userRefs: Record, articleRefs: Record): (r: Record)
    ensures CommentFormatted(comment, r, userRefs, articleRefs)
  {
    var copy := comment;
    var withUser := copy["created_by" := Get(userRefs, ToKey(Get(copy, "created_by")))];
    withUser["belongs_to" := Get(articleRefs, ToKey(Get(withUser, "belongs_to")))]
  }

  /** The formatted comment is determined by the input. */
  lemma CommentFormattedUnique(before: Record, x: Record, y: Record, userRefs: Record, articleRefs: Record)
    requires CommentFormatted(before, x, userRefs, articleRefs) && CommentFormatted(before, y, userRefs, articleRefs)
    ensures x == y
  {
  }

  /** `formatCommentData(commentData, userRefs, articleRefs)`: one formatted
      copy per fixture, in order. */
  function FormatCommentData(commentData: seq<Record>, userRefs: Record, articleRefs: Record): (r: seq<Record>)
    ensures |r| == |commentData|
    ensures forall i :: 0 <= i < |commentData| ==> CommentFormatted(commentData[i], r[i], userRefs, articleRefs)
  {
    if commentData == [] then []
    else [FormatComment(commentData[0], userRefs, articleRefs)] + FormatCommentData(commentData[1..], userRefs, articleRefs)
  }
}
