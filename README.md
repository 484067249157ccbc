# Fixture reference resolution of the Northcoders News seeder

The seeder of this news API loads fixture records into a document store. Its
fixtures refer to users by username and to articles by title. The store,
though, refers to them by the identifiers it generates on insert. Three pure
helpers in `utils/index.js` close that gap, and this project models them:

- `createRefObj(data, docs, property)` folds the fixtures, position by
  position, into a lookup object. Each key is `data[i][property]`, and it maps
  to `docs[i]._id`, the identifier of the stored document at the same position.
- `formatArticleData(articleData, userRefs)` copies each article fixture. The
  copy's `topic` property is renamed `belongs_to`, and its `created_by`
  username is replaced by `userRefs[username]`.
- `formatCommentData(commentData, userRefs, articleRefs)` copies each comment
  fixture. The copy's `created_by` is resolved through `userRefs` and its
  `belongs_to` title through `articleRefs`.

Modules:

- `JsObjects` (`js_objects.dfy`) holds the JavaScript semantics the helpers
  rely on. A property value is `Undefined`, a string, an integer or a
  store-generated `Id`. A plain object is a `map<string, Value>`, and reading a
  missing property gives `Undefined`. `ToKey` is the implicit conversion of a
  value used as a property key: a number becomes its decimal text, and
  `undefined` becomes `"undefined"`. A thrown `TypeError` is a `Result` case.
- `Utils` (`utils.dfy`) holds the three helpers and their specifications.
  `createRefObj` is the fold `Reduce`. Its result is characterised by its key
  set and by a last-write-wins rule. Each formatter is specified by a relation
  between an input record and its output record (`ArticleFormatted`,
  `CommentFormatted`). Lemmas show that this relation fixes the output
  completely.
- `Seed` (`seed.dfy`) chains the helpers the way `seed/seed.js` does. It proves
  that every seeded article and comment refers to the identifier of the
  document whose fixture carries the named username or title. A name that
  matches no fixture resolves to `undefined`.

Two edge cases of the code are worth stating:

- A length mismatch fails only one way. Reading `docs[index]._id` past the end
  of `docs` throws a `TypeError`, so `createRefObj` throws only when `docs` is
  shorter than `data`. Extra trailing documents are ignored (`CreateRefObj`,
  `TrailingDocsIgnored`).
- An unknown username or title is not rejected: the code stores `undefined`
  (`ArticleAuthorUnresolved`, `CommentAuthorUnresolved`,
  `CommentArticleUnresolved`).

An article fixture with no own `topic` property makes
`Object.getOwnPropertyDescriptor` return `undefined`. `Object.defineProperty`
then throws. The model returns `TypeError` for it and does not forbid it with a
precondition. Inputs are values in Dafny, so "the input records are not
modified" holds by construction: every helper returns new records.

## Model

| member | source | states |
|---|---|---|
| `JsObjects.Decimal` | utils/index.js:3 | a number used as a property key becomes non-empty decimal digit text with no leading zero |
| `JsObjects.DecimalRoundTrip` | utils/index.js:3 | reading the decimal key text of a number back gives the number |
| `JsObjects.ToKeyNumInjective` | utils/index.js:3 | two different numbers are never filed under the same property key |
| `Utils.ReduceFolds` | utils/index.js:2-5 | about `Reduce`, the reduce callback run from a given position: once `docs` covers `data`, the reduce from any position succeeds; it adds exactly the keys of the remaining fixtures, each surviving key maps to its position's `_id`, and untouched accumulator entries are kept |
| `Utils.ReduceThrows` | utils/index.js:3 | when `docs` is shorter than `data`, the reduce throws a TypeError on reading `._id` of the first position past the end of `docs` |
| `Utils.CreateRefObj` | utils/index.js:1-6 | keys are `data[i][property]` converted by `ToKey`, the engine's property-key conversion at lines 3, 15, 24 and 26; succeeds if and only if `docs` is at least as long as `data`; the key set is exactly the set of `data[i][property]` keys; a key filed at no later position maps to `docs[i]._id` |
| `Utils.CreateRefObjEmpty` | utils/index.js:2-5 | empty `data` gives the empty object `{}` |
| `Utils.LastWithExists` | utils/index.js:2-4 | every position shares its key with a position at or after it that no later position overwrites |
| `Utils.RefObjEntry` | utils/index.js:2-4 | the entry for any fixture's key is the `_id` at the last position filed under that key |
| `Utils.LastWriteWins` | utils/index.js:2-4 | when a key repeats, the entry from the last such position wins |
| `Utils.ReduceIgnoresTail` | utils/index.js:3 | the reduce reads `docs` only at the positions of `data` |
| `Utils.TrailingDocsIgnored` | utils/index.js:1-6 | appending documents beyond the length of `data` leaves the lookup object unchanged |
| `Utils.RefObjDeterminesIds` | utils/index.js:3 | with unique keys, equal lookup objects imply equal `_id`s at every position, so pairing documents in a different order gives a different mapping |
| `Utils.FormatArticle` | utils/index.js:9-16 | succeeds exactly when the record has its own `topic`; the copy has `belongs_to` equal to the input's `topic`, has no `topic`, has `created_by` equal to `userRefs[created_by]`, and keeps every other property |
| `Utils.ArticleFormattedUnique` | utils/index.js:10-15 | those four facts pin the formatted article down completely |
| `Utils.FormatArticleData` | utils/index.js:8-18 | throws if and only if some fixture lacks `topic`; otherwise returns one formatted copy per fixture, same length and order |
| `Utils.FormatComment` | utils/index.js:21-27 | the copy has `created_by` equal to `userRefs[created_by]`, has `belongs_to` equal to `articleRefs[belongs_to]`, and keeps every other property |
| `Utils.CommentFormattedUnique` | utils/index.js:22-26 | those three facts pin the formatted comment down completely |
| `Utils.FormatCommentData` | utils/index.js:20-29 | one formatted copy per comment fixture, same length and order |
| `Seed.SeedArticles` | seed/seed.js:16-17 | the articles phase succeeds if and only if the user documents cover the user fixtures and every article has `topic`; it keeps the article count |
| `Seed.SeedComments` | seed/seed.js:26-28 | the comments phase succeeds if and only if the user and article documents cover their fixtures; it keeps the comment count |
| `Seed.ArticleAuthorResolved` | seed/seed.js:16-17 | a seeded article's `created_by` is the `_id` of the user document whose fixture has that username |
| `Seed.ArticleAuthorUnresolved` | utils/index.js:15 | an article whose username matches no user fixture gets an `undefined` author |
| `Seed.ArticleTopicKept` | utils/index.js:12-13 | a seeded article's `belongs_to` is its fixture's topic slug, unchanged |
| `Seed.CommentRefsResolved` | seed/seed.js:26-28 | a seeded comment's `created_by` and `belongs_to` are the `_id`s of the user and article documents whose fixtures carry its username and title |
| `Seed.CommentAuthorUnresolved` | utils/index.js:24 | a comment whose username matches no user fixture gets an `undefined` author |
| `Seed.CommentArticleUnresolved` | utils/index.js:26 | a comment whose title matches no article fixture gets an `undefined` article |

## Left out

- The store is not modelled. Dropping the database, the bulk inserts and the promise sequencing in `seed/seed.js` are I/O. The documents an insert returns are parameters, assumed to be in the same order as the fixtures.
- Controllers, routers, the app wiring, the run scripts and the HTTP test are all store queries or Express plumbing. They are not part of this model.
- Prototype properties are not modelled. In JavaScript, looking up a key such as `constructor` or `toString` in a lookup object finds an inherited member of `Object.prototype`, not `undefined`. Assigning under the key `__proto__` changes the prototype and adds no entry. The model treats every key as an ordinary own property.
- Property order is not modelled. Records are maps, so the order in which a copy lists its properties is lost. For example, `belongs_to` is appended last after the rename, and the model cannot show that.
- Numbers are integers. JavaScript numbers are floating point, but the fixtures' numeric fields hold integer votes and timestamps. Fractions, `NaN` and exponent notation in keys are not modelled.
- Values are flat. Nested objects, arrays, booleans and `null` are not among the modelled values. The helpers never read into such values; they only copy them.
- `Array.prototype.reduce` and `map` skip holes in sparse arrays. The model's sequences have no holes.
