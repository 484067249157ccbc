/**
 How seed/seed.js chains the helpers of utils/index.js: the username lookup
 object is built from the user fixtures and the documents the store returned
 for them, articles are formatted through it, and comments are formatted
 through it and through the title lookup object built from the article
 fixtures and the article documents. The store itself is not modelled: the
 documents it returned are parameters, assumed to be in fixture order.
 */
module Seed {
  import opened JsObjects
  import opened Utils

  /** The articles phase: `formatArticleData(articleData, createRefObj(userData, userDocs, 'username'))`. */
  function SeedArticles(userData: seq<Record>, userDocs: seq<Record>, articleData: seq<Record>): (r: Result<seq<Record>>)
    ensures r.Ok? <==> |userData| <= |userDocs| && forall i :: 0 <= i < |articleData| ==> "topic" in articleData[i]
    ensures r.Ok? ==> |r.value| == |articleData|
  {
    match CreateRefObj(userData, userDocs, "username")
    case TypeError => TypeError
    case Ok(userRefs) => FormatArticleData(articleData, userRefs)
  }

  /** The comments phase: `formatCommentData(commentData, userRefs, articleRefs)`
      with both lookup objects built from the fixtures and their documents. */
  function SeedComments(userData: seq<Record>, userDocs: seq<Record>, articleData: seq<Record>, articleDocs: seq<Record>,
                        commentData: seq<Record>): (r: Result<seq<Record>>)
    ensures r.Ok? <==> |userData| <= |userDocs| && |articleData| <= |articleDocs|
    ensures r.Ok? ==> |r.value| == |commentData|
  {
    match CreateRefObj(userData, userDocs, "username")
    case TypeError => TypeError
    case Ok(userRefs) =>
      match CreateRefObj(articleData, articleDocs, "title")
      case TypeError => TypeError
      case Ok(articleRefs) => Ok(FormatCommentData(commentData, userRefs, articleRefs))
  }

  /** A seeded article's author is the `_id` of the user document whose
      fixture has the article's `created_by` as its username (the last such
      fixture, when usernames repeat). */
  lemma ArticleAuthorResolved(userData: seq<Record>, userDocs: seq<Record>, articleData: seq<Record>, i: nat, j: nat)
    requires |userData| <= |userDocs| && forall k :: 0 <= k < |articleData| ==> "topic" in articleData[k]
    requires i < |articleData| && j < |userData|
    requires LastWith(userData, "username", j)
    requires ToKey(Get(articleData[i], "created_by")) == KeyAt(userData, "username", j)
    ensures SeedArticles(userData, userDocs, articleData).value[i]["created_by"] == IdAt(userDocs, j)
  {
  }

  /** An article whose `created_by` names no user fixture is seeded with an
      `undefined` author. */
  lemma ArticleAuthorUnresolved(userData: seq<Record>, userDocs: seq<Record>, articleData: seq<Record>, i: nat)
    requires |userData| <= |userDocs| && forall k :: 0 <= k < |articleData| ==> "topic" in articleData[k]
    requires i < |articleData|
    requires forall j :: 0 <= j < |userData| ==> KeyAt(userData, "username", j) != ToKey(Get(articleData[i], "created_by"))
    ensures SeedArticles(userData, userDocs, articleData).value[i]["created_by"] == Undefined
  {
  }

  /** A seeded article belongs to the topic slug its fixture names. */
  lemma ArticleTopicKept(userData: seq<Record>, userDocs: seq<Record>, articleData: seq<Record>, i: nat)
    requires |userData| <= |userDocs| && forall k :: 0 <= k < |articleData| ==> "topic" in articleData[k]
    requires i < |articleData|
    ensures "topic" in articleData[i]
    ensures SeedArticles(userData, userDocs, articleData).value[i]["belongs_to"] == articleData[i]["topic"]
  {
  }

  /** A seeded comment's author and article are the `_id`s of the user and
      article documents whose fixtures carry the comment's `created_by`
      username and `belongs_to` title. */
  lemma CommentRefsResolved(userData: seq<Record>, userDocs: seq<Record>, articleData: seq<Record>, articleDocs: seq<Record>,
                            commentData: seq<Record>, i: nat, u: nat, a: nat)
    requires |userData| <= |userDocs| && |articleData| <= |articleDocs|
    requires i < |commentData| && u < |userData| && a < |articleData|
    requires LastWith(userData, "username", u) && LastWith(articleData, "title", a)
    requires ToKey(Get(commentData[i], "created_by")) == KeyAt(userData, "username", u)
    requires ToKey(Get(commentData[i], "belongs_to")) == KeyAt(articleData, "title", a)
    ensures SeedComments(userData, userDocs, articleData, articleDocs, commentData).value[i]["created_by"] == IdAt(userDocs, u)
    ensures SeedComments(userData, userDocs, articleData, articleDocs, commentData).value[i]["belongs_to"] == IdAt(articleDocs, a)
  {
  }

  /** A comment whose `created_by` names no user fixture is seeded with an
      `undefined` author. */
  lemma CommentAuthorUnresolved(userData: seq<Record>, userDocs: seq<Record>, articleData: seq<Record>, articleDocs: seq<Record>,
                                commentData: seq<Record>, i: nat)
    requires |userData| <= |userDocs| && |articleData| <= |articleDocs|
    requires i < |commentData|
    requires forall u :: 0 <= u < |userData| ==> KeyAt(userData, "username", u) != ToKey(Get(commentData[i], "created_by"))
    ensures SeedComments(userData, userDocs, articleData, articleDocs, commentData).value[i]["created_by"] == Undefined
  {
  }

  /** A comment whose `belongs_to` names no article fixture is seeded with an
      `undefined` article. */
  lemma CommentArticleUnresolved(userData: seq<Record>, userDocs: seq<Record>, articleData: seq<Record>, articleDocs: seq<Record>,
                                 commentData: seq<Record>, i: nat)
    requires |userData| <= |userDocs| && |articleData| <= |articleDocs|
    requires i < |commentData|
    requires forall a :: 0 <= a < |articleData| ==> KeyAt(articleData, "title", a) != ToKey(Get(commentData[i], "belongs_to"))
    ensures SeedComments(userData, userDocs, articleData, articleDocs, commentData).value[i]["belongs_to"] == Undefined
  {
  }
}
