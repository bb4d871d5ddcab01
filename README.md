# Jharkhand tourism backend: chat routing and ledger proxy, modelled in Dafny

This project models the decision logic of the tourism backend's single service
file, `main.py`. It covers three pieces:

- **The `/chat` router.** The first message from a user id is answered with a
  fixed greeting, and the id is recorded in the process-wide `greeted_users`
  set. Later messages are lower-cased and routed in this order:
  1. The itinerary generator runs when the message contains `itinerary` or
     matches `plan.*day`. It reads a day count with `(\d+)\s*day` (default 3),
     selects places through the fixed interest map, and renders one block per
     day, cycling through the places.
  2. Otherwise the first key of `places.json`, in stored order, that occurs in
     the message gives a direct answer.
  3. Otherwise the language model is asked.
- **The post-processing in `query_gemini`.** The sentinel `OUT_OF_CONTEXT`
  becomes a redirect. On a `STOP` finish reason, runs of newlines are
  collapsed. Any other finish reason gives a fixed apology, and so does any
  exception.
- **The ledger proxy.** `verify_transaction` scans the ledger's sales list for
  the first record whose `txID` is the requested id, and maps each upstream
  failure to an HTTP error. `record_transaction` forwards a purchase and maps
  failures more coarsely.

Modules, one per component:

| module | file | what it holds |
|---|---|---|
| `Basics` | basics.dfy | `Option`, `Result` |
| `Text` | text.dfy | ASCII `lower`, `capitalize`, `strip`, substring test, `join`, decimal `int()`/`str()` |
| `Patterns` | patterns.dfy | the regular expressions `plan.*day` and `(\d+)\s*day` as predicates |
| `LanguageModel` | language_model.dfy | `query_gemini`'s handling of the model's answer |
| `KnowledgeBase` | knowledge_base.dfy | places, interest map, itinerary blocks, the `plan` dict, lookup order |
| `ChatRouter` | chat_router.dfy | the `Router` class with the greeted set, the itinerary loop, the lookup loop |
| `Ledger` | ledger.dfy | the sales scan and the error mapping of both ledger endpoints |

Inputs that main.py obtains from outside become parameters:
- `places.json` is an ordered list of `(key, entry)` pairs with distinct keys.
- The language model's result is a `GeminiOutcome`: the model object could not
  be built, the call raised, or it returned a text and a finish reason.
- The ledger's HTTP result is an `Upstream`: a transport error
  (`httpx.RequestError`), any other exception raised by the call (such as
  `httpx.InvalidURL`), or a status code with the raw text and the parsed body.

The model follows the code where the code and its description differ:
- **No "Day N" header in the reply.** The itinerary's "Day N" strings are only
  the keys of the `plan` dict. The reply joins only its values (main.py:159,
  164), so no "Day N" header appears in it. `BuildItinerary` keeps the dict
  and proves that its keys never collide, so the values come out one per day,
  in day order.
- **No 404 from verification.** A missing transaction does not produce a 404.
  An upstream body that is not a list does not produce the "invalid format"
  error either. Both `HTTPException`s are raised inside the `try` of
  `verify_transaction`, and its final `except Exception` replaces them with
  the generic 500 (main.py:243, 255, 272-275). See "Findings".
- **Where the chat path's exceptions go.**
  - The language-model object is created before `query_gemini`'s `try`
    (main.py:98), so a failure there leaves `query_gemini`. The `try` of `chat`
    (main.py:171-176) catches it and answers with its "trouble processing"
    reply.
  - The direct lookup reads `info['description']` (main.py:168). A
    `places.json` entry without a description raises `KeyError` there, and that
    error leaves the endpoint. `Respond` and `Router.Chat` return `Err` for this
    case.
- **A JSON null `user_id` is its own id.** Sending `user_id` as JSON null gives
  the id `None`, distinct from the default `"default"` used when the field is
  omitted. User ids are `Option<string>` and are compared exactly.

## Model

| member | source | states |
|---|---|---|
| `ChatRouter.Router.constructor` | main.py:61 | the greeted set starts empty |
| `ChatRouter.Router.Chat` | main.py:136-176 | the id is added to the greeted set and nothing else changes; an id not seen before gets the greeting whatever the message; a seen id is answered by the routing of `Respond` on the lower-cased message |
| `ChatRouter.Respond` | main.py:139-176 | on the lower-cased message: the itinerary reply when the trigger matches; otherwise the answer for the first place key in the message; otherwise the model's reply, or the trouble reply when the model object cannot be built; an error only from the direct lookup |
| `ChatRouter.ItineraryWanted` | main.py:146 | true exactly when the message contains "itinerary" or some "plan" is followed, later on the same line, by "day" |
| `ChatRouter.GreetingOnlyFromModel` | main.py:141-176 | once a user is greeted, the greeting text comes back only if the language model's own STOP answer collapses to exactly that text; no local branch or fixed reply can produce it |
| `ChatRouter.PlaceAnswerIsNotGreeting` | main.py:168 | a direct-lookup answer is never the greeting (it has a colon right after the place name) |
| `ChatRouter.BuildItinerary` | main.py:155-164 | filling `plan` with keys "Day {i+1}" and joining its values gives exactly `days` blocks, block i for place `selected[i mod len]`, joined by blank lines |
| `ChatRouter.FindPlace` | main.py:166-168 | returns the first index whose key occurs in the message, every earlier key absent; None exactly when no key occurs |
| `KnowledgeBase.FirstPlaceFrom` | main.py:166-168 | the leftmost entry at or after a position whose key is a substring of the message, or None when there is none |
| `KnowledgeBase.PlaceAnswer` | main.py:168 | "Capitalized: description" for the entry; an error exactly when the entry has no description |
| `KnowledgeBase.MatchedInterests` | main.py:149 | a key is selected exactly when it is a key of the interest map and occurs in the message |
| `KnowledgeBase.SelectedInterests` | main.py:149 | exactly the matched interests, in their order, when any matched; otherwise `["nature"]`; never empty |
| `KnowledgeBase.CandidatePlacesMembers` | main.py:150 | a place is a candidate exactly when it is listed under one of the selected interests |
| `KnowledgeBase.CandidatePlaces` | main.py:150 | the first interest's place list is a prefix of the candidates; the whole concatenation is given by `CandidatePlacesAppend` and `CandidatePlacesOne` |
| `KnowledgeBase.CandidatePlacesAppend` | main.py:150 | the candidates of two interest lists are those of the first list followed by those of the second: concatenation in interest order, repetitions kept |
| `KnowledgeBase.CandidatePlacesOne` | main.py:150 | one interest contributes its own place list, or nothing when the map lacks it (`interest_map.get(i, [])`) |
| `KnowledgeBase.SelectedPlaces` | main.py:150 | the candidates when there are any, otherwise every key of places.json in order; empty only when both are empty |
| `KnowledgeBase.Keys` | main.py:150 | `list(places.keys())`: one key per entry, in stored order |
| `KnowledgeBase.StaticCandidatesNonEmpty` | main.py:56-60 | with the fixed interest map the candidate list is never empty, so the fallback to all place keys is never taken |
| `KnowledgeBase.ItineraryShape` | main.py:147-164 | the itinerary reply is DayCount(msg) blocks over the candidate places joined by blank lines; it is empty exactly when the count is 0, and otherwise starts with a block, never with the "couldn't find any places" reply |
| `KnowledgeBase.ItineraryReply` | main.py:147-164 | the "couldn't find any places" reply when no place is selected; otherwise DayCount(msg) blocks over the selected places joined by blank lines |
| `KnowledgeBase.Get` | main.py:158 | `dict.get` finds a value exactly when the key is present, and the value stored with it |
| `KnowledgeBase.InfoOf` | main.py:158 | the entry stored under the place when it is present; no fields when it is absent |
| `KnowledgeBase.FieldOrMissing` | main.py:160-162 | a missing field renders as "N/A", a present one as itself |
| `KnowledgeBase.RenderBlock` | main.py:160-162 | every day block starts with the pin marker |
| `KnowledgeBase.DayPlaces` | main.py:157 | day i visits `selected[i % len(selected)]`, for each of the `days` days |
| `KnowledgeBase.DayPlacesFirstLap` | main.py:156-157 | while the days last no longer than the list, the days visit the selected places once each, in order |
| `KnowledgeBase.DayPlacesRepeat` | main.py:157 | a full lap later the itinerary visits the same place again |
| `KnowledgeBase.Blocks` | main.py:158-163 | one rendered block per place name, in order |
| `KnowledgeBase.DayBlocks` | main.py:155-163 | one block per day |
| `KnowledgeBase.DayBlocksAt` | main.py:156-163 | block i of the itinerary is the block of `selected[i % len(selected)]` |
| `ChatRouter.PlanGrows` | main.py:155-163 | one round of the loop appends day i's key and text after the earlier days, because the key is new |
| `ChatRouter.NextDayKeyIsNew` | main.py:159 | the key of the next day is not among the keys already in `plan` |
| `ChatRouter.PlanValues` | main.py:164 | once every day is in, `plan.values()` are the day texts in day order |
| `KnowledgeBase.DayKeysDistinct` | main.py:159 | different days get different "Day {i+1}" keys |
| `KnowledgeBase.DayKey` | main.py:159 | the key of day i is "Day " followed by the decimal digits of i + 1 |
| `KnowledgeBase.Assign` | main.py:159 | `d[k] = v` appends a new key at the end and keeps the key order when k is present; afterwards k holds v and every other key holds what it held before |
| `KnowledgeBase.Values` | main.py:164 | `values()` lists the values in insertion order |
| `Patterns.PlanDay` | main.py:146 | true exactly when some "plan" is followed, later on the same line, by "day" |
| `Patterns.DayOnLine` | main.py:146 | true exactly when a "day" starts at or after the position with no newline in between |
| `Patterns.DayCountMatchDetermined` | main.py:147 | a match of `(\d+)\s*day` at a position is unique: group 1 is the whole digit run and "day" follows the whole whitespace run |
| `Patterns.DayCountAtExtendsLeft` | main.py:147 | a match inside a digit run also matches one position earlier |
| `Patterns.LeftmostDayCount` | main.py:147 | finds the leftmost match position, or None when the pattern matches nowhere |
| `Patterns.DayCount` | main.py:147-148 | 3 when `(\d+)\s*day` matches nowhere; any other count comes from a match (the full statement is `DayCountSpec`) |
| `Patterns.DayCountSpec` | main.py:147-148 | the day count is 3 without a match, else the value of group 1 of the leftmost match, a whole run of digits |
| `Text.Lower` | main.py:139 | ASCII `lower()`, character by character |
| `Text.Capitalize` | main.py:160 | first character upper-cased, the rest lower-cased |
| `Text.Strip` | main.py:114 | the result is the slice left after removing whitespace at both ends, and neither end of it is whitespace |
| `Text.Contains` | main.py:146-149 | Python's `t in s` for strings: a contained text is never longer than the text that contains it |
| `Text.ContainsEmpty` | main.py:167 | as in Python, the empty string is in every string |
| `Text.Join` | main.py:164 | `sep.join(parts)`: empty for no parts, the part itself for one part, and the first part is a prefix of the result; with `JoinAppend` this fixes the result for every list |
| `Text.JoinAppend` | main.py:164 | joining two non-empty lists is joining each and putting one separator between the results |
| `Text.NatToDecimal` | main.py:159 | `str()` of a natural number: a non-empty run of digits with no leading zero except for 0 itself |
| `Text.IntToString` | main.py:196 | `str()` of an int: starts with '-' exactly for a negative number, and otherwise (after the sign) is `NatToDecimal` of the magnitude, so it has no leading zeros |
| `Text.DecimalRoundTrip` | main.py:159 | reading back the digits `str()` writes gives the number |
| `Text.IntToStringRoundTrip` | main.py:196 | `str()` of any int, negative ones included, parses back to it |
| `LanguageModel.PostProcess` | main.py:112-123 | the sentinel check comes first and gives the redirect whatever the finish reason; on STOP the reply is the stripped text with its newline runs collapsed; any other finish reason gives the "couldn't complete" text even when partial text exists |
| `LanguageModel.SentinelNeverLeaked` | main.py:114-121 | the post-processed reply is never "OUT_OF_CONTEXT" |
| `LanguageModel.StopReplyShape` | main.py:113-121 | on STOP the reply has no two adjacent newlines, keeps every other character in order, and is already stripped and collapsed |
| `LanguageModel.CollapseNewlines` | main.py:120 | the result has no two adjacent newlines and keeps the first and last character |
| `LanguageModel.CollapseMatchesReference` | main.py:120 | the substitution equals the reference that drops exactly the newlines directly after another newline: each run of two or more newlines becomes one newline in its place |
| `LanguageModel.CollapseKeepsOtherCharacters` | main.py:120 | collapsing removes only newlines: the other characters keep their order |
| `LanguageModel.CollapseKeepsSomeNewline` | main.py:120 | the result has a newline exactly when the text had one |
| `LanguageModel.CollapseFixesSingleNewlines` | main.py:120 | text with no two adjacent newlines is unchanged |
| `LanguageModel.CollapseIdempotent` | main.py:120 | collapsing twice equals collapsing once |
| `LanguageModel.ModelReply` | main.py:99-127 | any exception in the try gives the fixed error text; a response gives the post-processing of its text (the empty text when absent); the reply is never the sentinel |
| `LanguageModel.QueryGemini` | main.py:97-127 | raises only when the model object cannot be built (before the try); otherwise returns the reply of the try block |
| `Ledger.FirstMatch` | main.py:246-251 | the scan ends at the first dict whose txID equals the id, or at the first non-dict element, with everything before it a non-matching dict; no match means every element is a non-matching dict |
| `Ledger.IsSuccess` | main.py:207 | `raise_for_status()` passes exactly the statuses of the 2xx class |
| `Ledger.Matches` | main.py:248 | a record without a `txID` key never matches (`get` gives None) |
| `Ledger.MatchesOneId` | main.py:248 | a record matches at most one transaction id |
| `Ledger.ScanSales` | main.py:246-251 | the early-return loop ends exactly as `FirstMatch` describes |
| `Ledger.FirstMatchFindsEarliest` | main.py:246-251 | Found(k) exactly when element k matches and every earlier element is a non-matching dict |
| `Ledger.VerifyOutcome` | main.py:229-275 | 503 exactly on a transport error; the generic 500 for any other exception from the call; 502 with the upstream text on a non-2xx status; 500 "non-JSON" on an unparsable body; success exactly for a list with a matching record, and the record returned is the first match; a non-list body, a list without the id and a list whose scan reaches a non-dict all give the generic 500; never 404 |
| `Ledger.VerifyTransaction` | main.py:229-275 | the endpoint with its scan loop answers as `VerifyOutcome` |
| `Ledger.NotFoundReportedAsInternalError` | main.py:241-255 | for every 2xx JSON body that is not a list, and every list whose scan finds no match, the endpoint gives the generic 500 where the raise statements meant "invalid format" and 404 |
| `Ledger.EmptyListGivesInternalError` | main.py:241-255 | an empty list from a healthy ledger gives the generic 500 as written and the 404 as intended |
| `Ledger.VerifyOutcomeIntended` | main.py:241-255 | with the two raises reaching the client, 404 comes exactly for a list without the id and "invalid format" exactly for a non-list body; every other outcome is that of `VerifyOutcome` |
| `Ledger.RecordPayload` | main.py:195-198 | the payload has exactly the two keys, and its product_id parses back to the product id |
| `Ledger.RecordOutcome` | main.py:192-216 | success exactly on a 2xx JSON body, returned unchanged; 503 on a transport error; 500 for everything else, a non-2xx status and any other exception from the call included |
| `Ledger.RecordAndVerifyAgree` | main.py:207-216 | both endpoints answer 503 on exactly the same outcomes; on a non-2xx status record gives 500 where verify gives 502; whenever record fails, verify fails too |
| `Ledger.UpstreamFailed` | main.py:262-265 | an upstream HTTP error is reported with status 502 and a detail that ends with the upstream response text |

## Findings

| source | as written | input that shows it | evidently intended | confidence | as-written member | corrected member |
|---|---|---|---|---|---|---|
| main.py:255 | the 404 for a transaction id missing from the list is raised inside the `try` and caught by `except Exception` (main.py:272), so the client gets 500 "An internal error occurred during verification." | a 200 response whose body is `[]`, with any tx_id | 404 "Transaction ID not found for the given product." (and, for main.py:243, the "Invalid response format" detail for a non-list body) | high; not executed | `Ledger.NotFoundReportedAsInternalError` | `Ledger.VerifyOutcomeIntended` |

The endpoint model `Ledger.VerifyTransaction` keeps the behaviour as written.
`Ledger.VerifyOutcomeIntended` is the corrected mapping. It differs only in
the two swallowed cases.

## Left out

- FastAPI wiring, CORS, `Settings` and environment loading (main.py:15-46) and the liveness route (main.py:132-134) are framework set-up.
- `get_products` and `log_activity` (main.py:178-185, 277-287) only pass data to and from the Supabase store.
- The call to Gemini and its prompt (main.py:98-110) are not modelled. Only their outcome is an input. The same holds for the httpx requests and `response.json()` parsing in both ledger endpoints.
- Reading `places.json` (main.py:49-54) is not modelled. `places` is a parameter, and a missing file corresponds to the empty list.
- Python's `str()` of a float price (main.py:197) is not modelled. `RecordPayload` takes the price already formatted.
- Logging (`print`) is not modelled. Concurrent requests are not modelled either: `Router.Chat` calls are sequential, so the race on `greeted_users` is not captured.
- Unicode is not modelled. `lower`, `capitalize`, `strip`, `\s` and `\d` are modelled on ASCII only, with whitespace being ASCII `isspace` (space, tab to carriage return, 0x1C-0x1F).
- `places.json` field values are taken to be strings or absent. A JSON null or number would be printed by Python's `str()`, and an entry that is not an object would make `.get` raise. Neither case is modelled.
- Python refuses `int()` on a digit string of more than 4300 digits. `Patterns.DayCount` does not model that refusal and returns the value.
- FastAPI's validation of requests, and of the returned record against `SaleReceipt` (`response_model`), is not modelled.
- KnowledgeBase.MatchedInterests: its contract states which keys are selected, not their order. The order is the interest map's, and it follows from the definition.
- KnowledgeBase.RenderBlock: its contract states only how a block begins. The full text of a block is given by its definition, not by its contract.
