# Digital Farming API: knowledge base, orders and product documents

This project models the request-handling core of the Digital Farming REST API, an Express and Mongoose service. Four parts are modelled:

- **The knowledge-base handlers.** The paginated, filterable list; reading, creating, updating and deleting single items behind the "404 first, then 401" ownership gate; and full-text search.
- **The order handlers.** Placing an order; reading it; marking it paid or delivered; listing the caller's orders; deleting it; and the stock update, which walks the order's line items and decrements each product's stock.
- **The `KnowledgeBase` document schema.** Required fields, trimming, maximum lengths, enumerations and defaults.
- **The `Product` document schema.** The same kinds of constraint, plus the `pre('remove')` hook that deletes a product's reviews with it.

## Modules

Modules follow the program's structure:

- `Common`: options, results, HTTP outcomes, parsed JSON, and the `Collection<T>` class that stands for one Mongo collection. The handlers change it in place.
- `JsText`: the JavaScript built-ins the handlers rely on. These are `trim`, `split`/`join`, `parseInt`, `Number()` coercion, UTF-16 length and `JSON.stringify`.
- `OperatorRewrite`: the `\b(gt|gte|lt|lte|in)\b` → `$…` rewrite the list handler applies to the serialised filter. It has two definitions:
  - a scanning function;
  - a declarative, regex-like one (`MatchAt`/`Marked`).

  Proved: the two agree, and for query-shaped values the rewrite commutes with serialisation.
- `QueryBuilder`: the list handler's pieces:
  - stripping the control parameters;
  - comma lists;
  - `page`/`limit` with their defaults;
  - the skip/limit window;
  - the `next`/`prev` links.
- `KnowledgeBaseModel`, `ProductModel`: the two schemas and the remove hook.
- `KnowledgeBaseController`, `OrderController`: the handlers, one member per exported function.

## Error statuses

Every error reaches the central error middleware, which answers with `err.statusCode || 500` (`digital-farming-api/server.js:68`). So only the handlers' own `ErrorResponse`s carry 400, 401 or 404. Everything else answers 500:

- a Mongoose validation error;
- a `TypeError` from `.split` on a non-string;
- reading `_id` of `null`;
- a failed cast;
- a `JSON.parse` failure.

This is also why a validation failure is modelled as 500 and not as 400. It is why an update can reassign `createdBy`: the handler passes the whole body to `findByIdAndUpdate`.

## Model

| member | source | states |
|---|---|---|
| Common.Lookup | digital-farming-api/controllers/knowledgeBaseController.js:26-41 | Reading `req.query.x` gives a value exactly when some member has that key, and the value read is one of the object's members. |
| Common.LookupUnique | digital-farming-api/controllers/knowledgeBaseController.js:26-41 | On an object without repeated keys, reading any member's key gives that member's value. |
| Common.Collection.Save | digital-farming-api/controllers/orderController.js:126 | `save()` stores the document under its id and leaves every other document as it was. |
| Common.Collection.RemoveAll | digital-farming-api/models/Product.js:69 | `deleteMany` drops exactly the documents with the given ids. |
| Common.Collection.Remove | digital-farming-api/controllers/orderController.js:142 | `remove()` drops exactly that document. |
| JsText.TrimStart | digital-farming-api/models/KnowledgeBase.js:8 | The result is a suffix of the input. Everything dropped is white space. The result does not start with white space. |
| JsText.TrimEnd | digital-farming-api/models/KnowledgeBase.js:8 | The result is a prefix of the input. Everything dropped is white space. The result does not end with white space. |
| JsText.Trim | digital-farming-api/models/KnowledgeBase.js:8 | The `trim` setter yields a trimmed string no longer than its input. |
| JsText.TrimOfTrimmed | digital-farming-api/models/KnowledgeBase.js:8 | Trimming a string with no surrounding white space leaves it unchanged. |
| JsText.TrimIdempotent | digital-farming-api/models/Product.js:8 | Trimming twice is trimming once. |
| JsText.TrimStartSkips | digital-farming-api/models/KnowledgeBase.js:8 | Leading white space followed by a non-space is skipped exactly. |
| JsText.Utf16Length | digital-farming-api/models/KnowledgeBase.js:9 | `maxlength` counts UTF-16 code units: between one and two per character. |
| JsText.Split | digital-farming-api/controllers/knowledgeBaseController.js:27 | `split(',')` gives at least one part, and no part contains the separator. |
| JsText.JoinCons | digital-farming-api/controllers/knowledgeBaseController.js:27 | A character in front of the first part stays in front of the joined text. |
| JsText.SplitJoinReplaces | digital-farming-api/controllers/knowledgeBaseController.js:27 | `s.split(a).join(b)` is `s` with every `a` replaced by `b`. |
| JsText.SplitOfReplaced | digital-farming-api/controllers/knowledgeBaseController.js:33 | Splitting the rewritten list on the new separator gives back the original parts, when the new separator did not occur before. |
| JsText.DigitChar | digital-farming-api/controllers/knowledgeBaseController.js:40 | A digit value's character is a digit with that value. |
| JsText.DigitLen | digital-farming-api/controllers/knowledgeBaseController.js:40 | The maximal run of leading digits: all digits, followed by a non-digit or the end. |
| JsText.NatToString | digital-farming-api/controllers/knowledgeBaseController.js:40 | A natural number's decimal form is a non-empty run of digits. |
| JsText.IntToString | digital-farming-api/controllers/knowledgeBaseController.js:40 | An integer's decimal form starts with a digit or a minus sign. |
| JsText.DigitsValueOfNatToString | digital-farming-api/controllers/knowledgeBaseController.js:40 | Reading back a number's decimal form gives the number. |
| JsText.DigitLenOfDigits | digital-farming-api/controllers/knowledgeBaseController.js:40 | The digit run of `digits + rest` ends exactly where `rest` starts when `rest` does not begin with a digit. |
| JsText.ParseSigned | digital-farming-api/controllers/knowledgeBaseController.js:40-41 | `parseInt` yields a number exactly when a digit follows the optional sign. |
| JsText.ReadsDigits | digital-farming-api/controllers/knowledgeBaseController.js:40 | A number's decimal form followed by a non-digit reads back as exactly that number's digits. |
| JsText.ParseSignedParts | digital-farming-api/controllers/knowledgeBaseController.js:40 | The value read is the digit run's value, negated after a minus sign. |
| JsText.UnsignedOfMinus | digital-farming-api/controllers/knowledgeBaseController.js:40 | A leading minus sign is dropped before the digits are read. |
| JsText.ParseSignedReadsNegative | digital-farming-api/controllers/knowledgeBaseController.js:40 | A minus sign followed by a decimal form reads as the negated number. |
| JsText.ParseSignedReadsNatural | digital-farming-api/controllers/knowledgeBaseController.js:40 | A decimal form followed by a non-digit reads as that number. |
| JsText.ParseSignedReadsDecimal | digital-farming-api/controllers/knowledgeBaseController.js:40-41 | The decimal form of any integer, followed by a non-digit, reads back as that integer. |
| JsText.ParseIntReadsDecimal | digital-farming-api/controllers/knowledgeBaseController.js:40-41 | `parseInt(ws + n + rest, 10)` is `n` for leading white space and a non-digit `rest`. |
| JsText.TrimAround | digital-farming-api/controllers/orderController.js:125 | `Number()` trims exactly the whitespace around a trimmed text. |
| JsText.StringToNumber | digital-farming-api/controllers/orderController.js:125 | `Number()` of a blank string is 0. |
| JsText.StringToNumberReadsDecimal | digital-farming-api/controllers/orderController.js:125 | `Number()` reads back any decimal integer, whatever whitespace surrounds it. |
| JsText.NumberAgreesWithParseInt | digital-farming-api/controllers/orderController.js:125 | Wherever `Number()` reads a non-blank text as an integer, `parseInt` reads the same integer. |
| JsText.ToNumber | digital-farming-api/controllers/orderController.js:125 | The `-=` coercion: `undefined` is NaN, `null` is 0, a number is itself. |
| JsText.ToNumberOfDecimalString | digital-farming-api/controllers/orderController.js:125 | A `qty` sent as a decimal string coerces to its integer. |
| JsText.ToNumberOfSingleton | digital-farming-api/controllers/orderController.js:125 | A `qty` sent as a one-number array coerces to that number. |
| JsText.ToNumberOfObject | digital-farming-api/controllers/orderController.js:125 | A `qty` sent as an object coerces to NaN. |
| JsText.EscapeChar | digital-farming-api/controllers/knowledgeBaseController.js:17 | `JSON.stringify` emits only printable characters (code 0x20 and up) for any character; it keeps a printable character other than `"` and `\`, and backslash-escapes those two. |
| JsText.UnescapeEscapeChar | digital-farming-api/controllers/knowledgeBaseController.js:17-23 | `JSON.parse` decodes one escaped character back to that character, whatever follows. |
| JsText.UnescapeEscape | digital-farming-api/controllers/knowledgeBaseController.js:17-23 | `JSON.parse` of the serialised string body gives back the original string, for every string. |
| JsText.EscapeAppend | digital-farming-api/controllers/knowledgeBaseController.js:17 | Escaping distributes over concatenation. |
| OperatorRewrite.WordEnd | digital-farming-api/controllers/knowledgeBaseController.js:20 | A word starting at `i` ends at the first non-word character, and is non-empty when `i` holds a word character. |
| OperatorRewrite.WordEndChars | digital-farming-api/controllers/knowledgeBaseController.js:20 | Everything inside the word is a word character. |
| OperatorRewrite.WordEndExact | digital-farming-api/controllers/knowledgeBaseController.js:20 | A run of word characters bounded by a non-word character is exactly the word. |
| OperatorRewrite.WordEndOfSuffix | digital-farming-api/controllers/knowledgeBaseController.js:20 | The word found in a suffix is the word found at that position of the whole text. |
| OperatorRewrite.OccursSlice | digital-farming-api/controllers/knowledgeBaseController.js:20 | An operator occurs at a position iff the slice there equals it. |
| OperatorRewrite.OperatorSpansWord | digital-farming-api/controllers/knowledgeBaseController.js:20 | A `\b`-bounded operator occurrence is an entire word. |
| OperatorRewrite.MatchIsOperatorWord | digital-farming-api/controllers/knowledgeBaseController.js:20 | Where the regex matches, the word there is one of `gt`, `gte`, `lt`, `lte`, `in`. |
| OperatorRewrite.OperatorWordMatches | digital-farming-api/controllers/knowledgeBaseController.js:20 | At a word start, a word that is an operator is matched by the regex. |
| OperatorRewrite.MatchAtWordStart | digital-farming-api/controllers/knowledgeBaseController.js:20 | At a word start, the regex matches iff the whole word is an operator. |
| OperatorRewrite.OperatorAtFirst | digital-farming-api/controllers/knowledgeBaseController.js:20 | An occurrence starts with the operator's first letter. |
| OperatorRewrite.NoMatchAtNonWord | digital-farming-api/controllers/knowledgeBaseController.js:20 | The regex never matches at a non-word character. |
| OperatorRewrite.NoMatchAfterWordChar | digital-farming-api/controllers/knowledgeBaseController.js:20 | Nothing is inserted right after a word character (no `\b` there). |
| OperatorRewrite.MarkedInsideWord | digital-farming-api/controllers/knowledgeBaseController.js:20 | Inside a word the text is copied unchanged. |
| OperatorRewrite.RewriteAtWord | digital-farming-api/controllers/knowledgeBaseController.js:20 | The scan rewrites a leading word and continues after it. |
| OperatorRewrite.RewriteFirstWord | digital-farming-api/controllers/knowledgeBaseController.js:20 | The same, for a word given by its length. |
| OperatorRewrite.RewriteWordAt | digital-farming-api/controllers/knowledgeBaseController.js:20 | The same, for the word at any position. |
| OperatorRewrite.RewriteAtWordParts | digital-farming-api/controllers/knowledgeBaseController.js:20 | The same, for a leading word and the rest given by name. |
| OperatorRewrite.RewriteNonWordAt | digital-farming-api/controllers/knowledgeBaseController.js:20 | A non-word character is copied and the scan continues after it. |
| OperatorRewrite.RewriteSuffix | digital-farming-api/controllers/knowledgeBaseController.js:20 | From any position that is not inside a word, the scan produces what the regex replacement produces from there. |
| OperatorRewrite.MarkedAtWordStart | digital-farming-api/controllers/knowledgeBaseController.js:20 | At a word start the replacement inserts `$` iff the word is an operator. |
| OperatorRewrite.MarkedWord | digital-farming-api/controllers/knowledgeBaseController.js:20 | The replacement emits a whole word at once, prefixed with `$` iff it is an operator. |
| OperatorRewrite.MarkedRun | digital-farming-api/controllers/knowledgeBaseController.js:20 | The rest of a word run is copied as it is. |
| OperatorRewrite.WordStartSuffix | digital-farming-api/controllers/knowledgeBaseController.js:20 | From a word start, the scan and the replacement agree. |
| OperatorRewrite.RewriteMarksMatches | digital-farming-api/controllers/knowledgeBaseController.js:20 | The scanning rewrite is the global regex replacement: `$` goes in front of exactly the matches. |
| OperatorRewrite.RewriteAppend | digital-farming-api/controllers/knowledgeBaseController.js:20 | Rewriting distributes over concatenation when the seam is not inside a word. |
| OperatorRewrite.FirstWordOfAppend | digital-farming-api/controllers/knowledgeBaseController.js:20 | The first word of `a + b` lies within `a` when the seam is a word boundary. |
| OperatorRewrite.RewriteFirstWordOfAppend | digital-farming-api/controllers/knowledgeBaseController.js:20 | The scan of `a + b` starts with `a`'s first word, rewritten. |
| OperatorRewrite.RewriteAppendWord | digital-farming-api/controllers/knowledgeBaseController.js:20 | The inductive case of distribution when `a` starts with a word. |
| OperatorRewrite.RewriteNoWords | digital-farming-api/controllers/knowledgeBaseController.js:20 | Text without word characters is unchanged. |
| OperatorRewrite.RewriteWord | digital-farming-api/controllers/knowledgeBaseController.js:20 | A single word is prefixed with `$` iff it is an operator. |
| OperatorRewrite.RewriteAfterSeparator | digital-farming-api/controllers/knowledgeBaseController.js:20 | A leading separator is copied. |
| OperatorRewrite.RewriteJoin | digital-farming-api/controllers/knowledgeBaseController.js:17-20 | Rewriting a separator-joined text rewrites each part separately. |
| OperatorRewrite.EscapeCharClass | digital-farming-api/controllers/knowledgeBaseController.js:17 | Escaping keeps a printable word character, and turns a printable non-word character into non-word characters only. |
| OperatorRewrite.EscapeWord | digital-farming-api/controllers/knowledgeBaseController.js:17 | A word is serialised unchanged. |
| OperatorRewrite.RewriteEscape | digital-farming-api/controllers/knowledgeBaseController.js:17-20 | For text without control characters, rewriting the escaped text is escaping the rewritten text. |
| OperatorRewrite.RewriteEscapeNonWord | digital-farming-api/controllers/knowledgeBaseController.js:17-20 | The step of that commutation for a leading non-word character. |
| OperatorRewrite.EscapeAtWordEnd | digital-farming-api/controllers/knowledgeBaseController.js:17-20 | The escaped text splits into the escaped first word and the escaped rest. |
| OperatorRewrite.EscapeAfterWord | digital-farming-api/controllers/knowledgeBaseController.js:17-20 | Escaping leaves a rewritten word untouched. |
| OperatorRewrite.RewriteEscapeWord | digital-farming-api/controllers/knowledgeBaseController.js:17-20 | The step of that commutation for a leading word. |
| OperatorRewrite.RewriteQuote | digital-farming-api/controllers/knowledgeBaseController.js:17-20 | Rewriting a serialised string serialises the rewritten string. |
| OperatorRewrite.StringifyRewrite | digital-farming-api/controllers/knowledgeBaseController.js:17-23 | For query-shaped values without control characters, `JSON.stringify` then rewrite equals rewriting every key and string and then serialising, so `JSON.parse` yields that object. |
| OperatorRewrite.RewriteMember | digital-farming-api/controllers/knowledgeBaseController.js:17-20 | A serialised member's key is rewritten in place. |
| OperatorRewrite.RewriteBracketed | digital-farming-api/controllers/knowledgeBaseController.js:17-20 | Delimiters around a text are kept and the text is rewritten. |
| OperatorRewrite.EscapeTabIn | digital-farming-api/controllers/knowledgeBaseController.js:17 | A tab is serialised as `\t`. |
| OperatorRewrite.RewriteEscapedTabIn | digital-farming-api/controllers/knowledgeBaseController.js:20 | `\tin` has no operator word once escaped, since `tin` is one word. |
| OperatorRewrite.RewriteTabIn | digital-farming-api/controllers/knowledgeBaseController.js:20 | Unescaped, the tab is a boundary and `in` is rewritten. |
| OperatorRewrite.ControlCharHidesOperator | digital-farming-api/controllers/knowledgeBaseController.js:17-20 | A key with a control character before an operator is not rewritten, unlike the value-level rewrite. The text-level rewrite differs from the structural one exactly there. |
| QueryBuilder.Without | digital-farming-api/controllers/knowledgeBaseController.js:13-14 | Deleting keys keeps exactly the members whose key is not deleted. |
| QueryBuilder.LookupWithout | digital-farming-api/controllers/knowledgeBaseController.js:14 | A deleted key reads as `undefined`; any other key reads as before. |
| QueryBuilder.WithoutNothing | digital-farming-api/controllers/knowledgeBaseController.js:10 | Deleting no key keeps the copy equal to the query. |
| QueryBuilder.WithoutTwice | digital-farming-api/controllers/knowledgeBaseController.js:14 | Deleting one key after others is deleting them all together. |
| QueryBuilder.StripControlParams | digital-farming-api/controllers/knowledgeBaseController.js:10-14 | The `forEach` loop leaves the filter with no `select`, `sort`, `page` or `limit`, and every other member as in the query. |
| QueryBuilder.SpaceSeparated | digital-farming-api/controllers/knowledgeBaseController.js:27 | The space list has the same length and no commas. |
| QueryBuilder.SpaceSeparatedFields | digital-farming-api/controllers/knowledgeBaseController.js:27-28 | The space list names the same fields in the same order as the comma list. |
| QueryBuilder.IntParamOr | digital-farming-api/controllers/knowledgeBaseController.js:40-41 | `parseInt(v, 10) \|\| d` is never 0, and is either the default or the integer parsed. |
| QueryBuilder.IntParamMissing | digital-farming-api/controllers/knowledgeBaseController.js:40-41 | An absent parameter takes the default. |
| QueryBuilder.UndefinedIsNaN | digital-farming-api/controllers/knowledgeBaseController.js:40 | `parseInt(undefined, 10)` is NaN. |
| QueryBuilder.IntParamReadsDecimal | digital-farming-api/controllers/knowledgeBaseController.js:40-41 | A parameter written as a non-zero integer, optionally followed by non-digit text, is that integer. |
| QueryBuilder.StringParamReads | digital-farming-api/controllers/knowledgeBaseController.js:40 | A string parameter is passed to `parseInt` as it is. |
| QueryBuilder.IntParamZero | digital-farming-api/controllers/knowledgeBaseController.js:40-41 | A parameter written `0` takes the default. |
| QueryBuilder.PageOf | digital-farming-api/controllers/knowledgeBaseController.js:40 | The page is never 0. |
| QueryBuilder.LimitOf | digital-farming-api/controllers/knowledgeBaseController.js:41 | The limit is never 0. |
| QueryBuilder.Window | digital-farming-api/controllers/knowledgeBaseController.js:42-46 | `skip(s).limit(l)` returns at most \|l\| items: the ones from position `s` on, in order. |
| QueryBuilder.WindowsAdjoinAt | digital-farming-api/controllers/knowledgeBaseController.js:42-46 | Two adjacent windows of one size make the window of twice that size. |
| QueryBuilder.WindowsAdjoin | digital-farming-api/controllers/knowledgeBaseController.js:42-46 | Consecutive pages cover consecutive, non-overlapping stretches of the result. |
| QueryBuilder.Paginate | digital-farming-api/controllers/knowledgeBaseController.js:52-66 | `next` points at page+1 and `prev` at page-1, each with the same limit. |
| QueryBuilder.PaginateMeaning | digital-farming-api/controllers/knowledgeBaseController.js:42-66 | For positive limits: `prev` is present iff page > 1, and `next` is present iff the collection holds documents past this page. |
| QueryBuilder.NextIgnoresFilter | digital-farming-api/controllers/knowledgeBaseController.js:44-59 | `total` counts the whole collection: whenever the filter matches no more documents than the page's end while the collection holds more, the page gets a `next` link to an empty page. |
| KnowledgeBaseModel.Trimmed | digital-farming-api/models/KnowledgeBase.js:8 | The setter keeps presence and yields a trimmed value. |
| KnowledgeBaseModel.TrimAll | digital-farming-api/models/KnowledgeBase.js:56-59 | Every tag is trimmed, and the count and order of tags are kept. |
| KnowledgeBaseModel.ValidateKnowledgeBase | digital-farming-api/models/KnowledgeBase.js:5-64 | Validation succeeds iff every path passes. A failure lists every failing path. A success is well-formed, carries the given values (title trimmed, tags trimmed) and fills the defaults `isOffline = false`, the default thumbnail and no tags. |
| KnowledgeBaseModel.ValidateRoundTrip | digital-farming-api/models/KnowledgeBase.js:5-64 | A well-formed item validates to itself. |
| KnowledgeBaseModel.ValidateIdempotent | digital-farming-api/models/KnowledgeBase.js:5-64 | Validating a validated item changes nothing. |
| KnowledgeBaseModel.TitleLengthAfterTrim | digital-farming-api/models/KnowledgeBase.js:8-9 | The 100-character limit applies after trimming, so surrounding white space does not count. |
| KnowledgeBaseModel.Merge | digital-farming-api/controllers/knowledgeBaseController.js:128 | The update takes `createdBy` from the body when the body has it. |
| KnowledgeBaseModel.MergeNothing | digital-farming-api/controllers/knowledgeBaseController.js:128-131 | An empty update returns the stored item. |
| KnowledgeBaseModel.MergeKeepsUnmentioned | digital-farming-api/controllers/knowledgeBaseController.js:128-131 | A successful update keeps every field the body does not mention. |
| ProductModel.ValidateProduct | digital-farming-api/models/Product.js:5-50 | Validation succeeds iff every path passes. A failure lists every failing path. A success is well-formed, carries the given values (name trimmed) and fills the defaults: price 0, the example image, rating 0, no reviews, stock 0. |
| ProductModel.ValidateProductRoundTrip | digital-farming-api/models/Product.js:5-50 | A well-formed product validates to itself. |
| ProductModel.ProductDefaults | digital-farming-api/models/Product.js:11-45 | A body with only the required fields gets every default. |
| ProductModel.ReviewsAfterRemove | digital-farming-api/models/Product.js:68-71 | Exactly the reviews of the removed product are deleted; the others are kept unchanged. |
| ProductModel.ReviewsAfterRemoveIdempotent | digital-farming-api/models/Product.js:68-71 | Running the cascade twice is running it once. |
| ProductModel.RemoveProduct | digital-farming-api/models/Product.js:68-71 | `remove()` deletes the product's reviews and then the product, and nothing else. |
| KnowledgeBaseController.ListQuery | digital-farming-api/controllers/knowledgeBaseController.js:10-37 | The query is built iff `select` and `sort` are falsy or strings. The filter text is the regex replacement over the serialised stripped query. The projection and sort are the space lists, with `-createdAt` as the default sort. |
| KnowledgeBaseController.ListFilterIsRewrittenObject | digital-farming-api/controllers/knowledgeBaseController.js:10-23 | For query-string values, the filter text serialises the stripped query with rewritten keys and strings. |
| KnowledgeBaseController.GetKnowledgeBaseItems | digital-farming-api/controllers/knowledgeBaseController.js:8-74 | Answers 200 iff the query builds, the skip is non-negative and the store evaluates the filter; otherwise 500. The data is the window at `(page-1)*limit` and `count` is its length. The links come from the unfiltered total. |
| Common.GetById | digital-farming-api/controllers/knowledgeBaseController.js:79-92 | `getKnowledgeBaseItem` and `getOrderById` answer 200 with the document iff it exists, else 404. |
| KnowledgeBaseController.CreatedItem | digital-farming-api/controllers/knowledgeBaseController.js:97-101 | A created item is owned by the caller and well-formed. |
| KnowledgeBaseController.CreateIgnoresClientOwner | digital-farming-api/controllers/knowledgeBaseController.js:99 | Any `createdBy` the client sends is overwritten. |
| KnowledgeBaseController.CreateKnowledgeBaseItem | digital-farming-api/controllers/knowledgeBaseController.js:97-107 | Answers 201 and stores the validated item under the new id, or answers 500 and stores nothing. |
| KnowledgeBaseController.UpdatedItem | digital-farming-api/controllers/knowledgeBaseController.js:128-131 | An updated item is well-formed, and its owner comes from the body if the body names one. |
| KnowledgeBaseController.UpdateKnowledgeBaseItem | digital-farming-api/controllers/knowledgeBaseController.js:112-134 | Answers 404 if absent, then 401 unless the caller is the creator or an admin, then 500 on a validation failure; nothing changes in those cases. Otherwise it answers 200 and stores the merged item. |
| KnowledgeBaseController.DeleteKnowledgeBaseItem | digital-farming-api/controllers/knowledgeBaseController.js:139-158 | Answers 404, then 401, with nothing changed; otherwise exactly that item is removed and it answers 200. |
| KnowledgeBaseController.Gate | digital-farming-api/controllers/knowledgeBaseController.js:115-126 | The gate passes iff the item exists and the caller is its creator or an admin. An absent id gives 404 before any 401. |
| KnowledgeBaseController.GateAdmin | digital-farming-api/controllers/knowledgeBaseController.js:122 | An admin always passes; anyone else passes iff they created the item. |
| KnowledgeBaseController.SearchKnowledgeBase | digital-farming-api/controllers/knowledgeBaseController.js:163-179 | A falsy `q` gets 400. A non-empty string `q` gets 200 with the store's text-search results and their count. |
| KnowledgeBaseController.SearchGuardIgnoresStore | digital-farming-api/controllers/knowledgeBaseController.js:164-166 | Without a term, the answer is 400 whatever the store holds. |
| OrderController.ToObject | digital-farming-api/controllers/orderController.js:25 | The own properties of a parsed object read as the object does. |
| OrderController.NormalizeItem | digital-farming-api/controllers/orderController.js:24-28 | Every client field is kept, `product` takes the client's `_id`, and `_id` is dropped. |
| OrderController.NewOrder | digital-farming-api/controllers/orderController.js:9-36 | Answers 400 iff the items are present with length 0. Missing items, non-array items and `null` elements answer 500. Otherwise the order has one normalised item per element, the caller as user, the body's prices and address, and is neither paid nor delivered. |
| OrderController.AddOrderItems | digital-farming-api/controllers/orderController.js:9-41 | Answers 201 and stores the new order, or answers the failure status and stores nothing. |
| OrderController.GetMyOrders | digital-farming-api/controllers/orderController.js:102-105 | Exactly the orders whose user is the caller, unchanged. |
| OrderController.MyOrdersPartition | digital-farming-api/controllers/orderController.js:103 | Two different callers never see the same order. |
| OrderController.DeleteOrder | digital-farming-api/controllers/orderController.js:138-147 | Answers 404 with nothing changed, or removes exactly that order and answers "Order removed". |
| OrderController.PaymentOf | digital-farming-api/controllers/orderController.js:68-73 | The payment record copies `id`, `status`, `update_time` and `payer.email_address`. It fails iff `payer` is missing or null. |
| OrderController.Paid | digital-farming-api/controllers/orderController.js:66-73 | The order becomes paid at `now` with that payment, and nothing else changes. |
| OrderController.Delivered | digital-farming-api/controllers/orderController.js:89-90 | The order becomes delivered at `now`, and nothing else changes. |
| OrderController.PayDeliverCommute | digital-farming-api/controllers/orderController.js:62-97 | Paying and delivering commute, and neither undoes the other. |
| OrderController.UpdateOrderToPaid | digital-farming-api/controllers/orderController.js:62-80 | Answers 404 if the order is absent, or 500 when the payer is missing; nothing changes in either case. Otherwise it stores and returns the paid order. |
| OrderController.UpdateOrderToDelivered | digital-farming-api/controllers/orderController.js:85-97 | Answers 404 with nothing changed, or stores and returns the delivered order. |
| OrderController.StockStep | digital-farming-api/controllers/orderController.js:123-127 | One line item never adds or removes products. |
| OrderController.StockAfter | digital-farming-api/controllers/orderController.js:122-128 | The walk keeps the set of products and changes only `countInStock`. |
| OrderController.StockFallsBySum | digital-farming-api/controllers/orderController.js:122-128 | After a complete walk, each product's stock has fallen by the total quantity ordered of it. |
| OrderController.UnreferencedUnchanged | digital-farming-api/controllers/orderController.js:122-128 | A product no item refers to is untouched. |
| OrderController.QtySumUnreferenced | digital-farming-api/controllers/orderController.js:122-128 | Items that do not refer to a product contribute no quantity to it. |
| OrderController.MissingProductSkipped | digital-farming-api/controllers/orderController.js:123-124 | An item whose product is missing or not stored changes nothing. |
| OrderController.FailureIgnoresStock | digital-farming-api/controllers/orderController.js:122-128 | Whether the walk fails depends on which products exist, not on their stock. |
| OrderController.StepFailureIgnoresStock | digital-farming-api/controllers/orderController.js:123-126 | The same, for one item. |
| OrderController.StockTwice | digital-farming-api/controllers/orderController.js:118-133 | Running the update twice takes the quantities off twice: the update is not idempotent. |
| OrderController.StockCanGoNegative | digital-farming-api/controllers/orderController.js:125 | Nothing stops the stock at zero: ordering more than the stock of a stored product leaves it at stock minus quantity, below zero. |
| OrderController.FailedPrefix | digital-farming-api/controllers/orderController.js:122-128 | After the first failure, later items are not looked at. |
| OrderController.StockAfterStep | digital-farming-api/controllers/orderController.js:122 | Each loop iteration extends the walk by one item. |
| OrderController.ApplyLineItem | digital-farming-api/controllers/orderController.js:123-126 | The loop body changes the product table exactly as one step of the walk does. |
| OrderController.UpdateOrderStock | digital-farming-api/controllers/orderController.js:118-133 | Answers 404 with nothing changed. Otherwise the products are those after the walk: 200 "Stock updated" if it completed, 500 keeping the decrements already saved if it failed. |

## Left out

- The HTTP layer is left out: routing, authentication middleware, route guards and the `asyncHandler` wrapper. The authenticated caller is a parameter.
- I/O and external services are left out: the database connection, the server bootstrap, the weather service and its routes. They are not part of this model.
- `digital-farming-api/models/Order.js`, `Review.js` and `User.js` are not part of this model. Orders are assumed to start neither paid nor delivered, and saves are assumed to succeed apart from the cast and validation failures modelled.
- Mongoose casting of numbers, booleans and ObjectIds is left out. Schema fields arrive already typed; ObjectIds are compared by their string form.
- `timestamps`, virtuals, `populate('user', …)` and the text score are left out. Search results come from a text-search parameter in the store's order.
- The store's evaluation of the filter text (`JSON.parse` plus `find`) is a parameter. A filter it cannot evaluate answers 500 (the JS `SyntaxError` has no status code, so it is 500, not 400).
- The clock (`Date.now()`) is a parameter `now`.
- Numbers are integers only: prices, quantities, `page` and `limit` have no fractions. The number parser reads only signed decimal integers (no `0x`, exponent or fraction syntax).
- OrderController.NormalizeItem: a string or array element is treated as having no own properties, although `{ ...x }` spreads its characters or entries under index keys. Only object elements are modelled field by field.
- KnowledgeBaseController.UpdatedItem: the update is validated as the merged document. `runValidators` on `findByIdAndUpdate` only runs the validators of the paths in the update.
- `getOrders` (list all orders) is not part of the modelled core.
- JsText.Unescape: a `\u` escape naming half of a surrogate pair is refused, not joined with its partner. Strings here are sequences of characters, and `JSON.stringify` never writes such escapes for them.
- Concurrency between requests (interleaved `await`s) is left out: each handler runs to completion on its own.
