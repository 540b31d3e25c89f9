# Musify subscription and catalog core, modelled in Dafny

Musify is a music-subscription application. It has three parts:

- An account service (`accounts/main.py`). It keeps an `Accounts` table keyed by email. Each item holds a password, a username and an ordered list of subscribed song titles.
- A content service (`content/main.py`). It answers catalog queries by title, artist and year over a `Music` table.
- A Flask frontend (`musify/app.py`). It composes the two services for the browser.

A loader script (`admin/music_loader.py`) prepares the catalog before upload.

This project models the sequential logic of those four files. The stores are replaced by in-memory values:

- **Accounts** (`accounts.dfy`). The class `AccountTable` holds the `Accounts` table as a `map<string, Account>`. Its methods are the five handlers: `Login`, `Register`, `GetSubscriptions`, `AddSubscription` and `DeleteSubscription`. Each handler ends in a value or a failure status (400, 404, 409, or 500 for an uncaught exception). Each method states the new table in full: which item changed, how, and that every other item did not. The list surgery is specified by functions on sequences. `IndexOf` is Python's `list.index`. `RemoveAt` is DynamoDB's `REMOVE subscriptions[i]`. `RemoveFirst` is a position-free reference definition. Lemmas connect the three and relate deletion to appending.
- **Content** (`content.dfy`). `BuildFilter` is the step-by-step construction in `get_music`. It builds the clauses, the `#yr` alias map, which is passed only when it is not empty, and the placeholder values. It is proved equal to the specification `FilterFor`, whose contract states:
  - the clause order and count;
  - the value keys and their string tags;
  - the alias rule;
  - the 400 on no criteria.

  `Scan` is the filtered scan over an in-memory sequence of items, as equality filtering. `FlattenResponse` is `flatten_response_dict`. `GetMusic` composes the three. `Decimal` (`decimal.dfy`) models `str(year)` and proves that `int` inverts it. `Strings` (`strings.dfy`) models `" AND ".join`.
- **Frontend** (`frontend.dfy`). `Concat` is `flatten_list`. `QueryString` is the query assembled by `query_music_form`, including its stray leading `&` when the title is empty. `SubscribedMusic` is the loop in `get_subscriptions`. It issues one content lookup per subscribed title, in order, and flattens the answers.
- **Loader** (`music_loader.dfy`). `S3Url` is `determine_s3_url`: an address in the image bucket for an object named after the title alone. `ReplaceImgUrls` overwrites each song object's `imgUrl` in place. `AttributeType` and `TableRequest` are the key-type choice and the request built by `create_table`.

Behaviours of the code that the model keeps as written:

- **Deleting a title that is not subscribed.** This gets a 500, not a 404. `subscriptions.index(...)` raises `ValueError` before any update is issued, and FastAPI turns the uncaught exception into a 500. The model answers `ServerError` and leaves the table unchanged.
- **Deleting a title.** The handler reads the list, computes the index and then issues an unconditional `update_item` with `REMOVE subscriptions[i]`. Nothing locks the item between the read and the write. The model runs each handler as one step. `RemoveFirstCommutes` states what two deletions in sequence give.
- **The year placeholder.** The year is bound as a string value, `{"S": str(year)}`, and the model does the same.
- **Registering an email that is already stored.** This is a 409 with the table unchanged.
- **An empty email.** Every handler passes the email to `get_item` as the key, and DynamoDB refuses an empty string as a key value. No handler catches that error, so FastAPI answers 500. The model answers `ServerError` and leaves the table unchanged, and the table never holds an item under `""`.
- **Image addresses.** `determine_s3_url` addresses the object `<title>` in the image bucket. The image uploader (`admin/s3_loader.py`) stores each image under `<title>-<artist>`. So the `img_url` the loader writes never names the image uploaded for that song. `S3UrlMissesUploadedImage` states this for every title and artist. The model keeps `S3Url` as written.

## Model

| member | source | states |
|---|---|---|
| Accounts.IndexOf | accounts/main.py:226-227 | `list.index`: defined exactly when the title is in the list; the result is a position holding the title with no earlier occurrence |
| Accounts.RemoveAt | accounts/main.py:229-235 | `REMOVE subscriptions[i]`: one element shorter, elements before `i` in place, elements after it shifted down by one, multiset loses exactly `s[i]` |
| Accounts.RemoveAtIndexOfIsRemoveFirst | accounts/main.py:226-235 | removing at the index `list.index` finds equals removing the first occurrence (position-free reference definition) |
| Accounts.RemoveFirstUndoesAppend | accounts/main.py:184-235 | deleting a title just appended, that was not subscribed before, restores the previous list |
| Accounts.RemoveFirstAfterAppend | accounts/main.py:184-235 | an append does not change which element a later delete removes; the new title stays last |
| Accounts.RemoveFirstCommutes | accounts/main.py:226-235 | deleting two titles one after the other gives the same list in either order |
| Accounts.AccountTable.Login | accounts/main.py:41-67 | success exactly when both fields are present, the email is stored and the password is equal; returns the stored item unchanged; an unknown email and a wrong password give the same 404; missing fields give 400; an empty email gives 500 |
| Accounts.AccountTable.Register | accounts/main.py:70-120 | 400 on a missing field, 500 on an empty email and 409 on a stored email, each with the table unchanged; otherwise exactly one new item under the email with the given password, username and list, every old item unchanged, and only `{email, username}` returned; no item is ever stored under `""` |
| Accounts.AccountTable.GetSubscriptions | accounts/main.py:123-149 | 400 without an email, 500 for an empty email, 404 for an unknown email, otherwise exactly the stored list |
| Accounts.AccountTable.AddSubscription | accounts/main.py:158-198 | 400 / 500 for an empty email / 404, each with the table unchanged; otherwise the stored list becomes `old + [title]`, the echoed list equals the new stored list, and no other item changes |
| Accounts.AccountTable.DeleteSubscription | accounts/main.py:201-235 | 400, 500 for an empty email, 404, and 500 when the title is not in the list, each with the table unchanged; otherwise the list loses exactly the element at the first index of the title and no other item changes |
| Content.FilterFor | content/main.py:38-64 | 400 exactly when title, artist and year are all falsy; one clause per truthy field, in the order title, artist, year; value keys exactly the placeholders of the truthy fields, each string-tagged, the year as `{"S": str(year)}`; alias map present, and equal to `{"#yr": "year"}`, exactly when the year is truthy |
| Content.BuildFilter | content/main.py:39-64 | the step-by-step construction with `append` and dict assignment yields exactly the filter `FilterFor` specifies |
| Content.Condition | content/main.py:63 | the `FilterExpression` is empty without clauses, is the single rendered clause when there is one, and otherwise starts with the first rendered clause |
| Content.Scan | content/main.py:66-79 | the scan returns exactly the table items on which every equality clause holds, each as many times as the table holds it, and none of the others |
| Content.ScanAppend | content/main.py:66-79 | scanning a table is scanning its two halves one after the other, so the matching items keep the table's order |
| Content.FilterMatchesCriteria | content/main.py:49-79 | an item matches the built filter exactly when it holds each given field, the aliased `#yr` resolving to the `year` attribute |
| Content.YearOnlyFilter | content/main.py:58-64 | a year alone gives the single condition `#yr = :_year` and the alias map `{"#yr": "year"}` |
| Content.TitleAndYearFilter | content/main.py:52-63 | title and year give the condition `title = :_title AND #yr = :_year` |
| Content.FlattenItem | content/main.py:94-97 | an item flattens exactly when all its values are `"S"`-tagged; the result has the same keys, each mapped to the `"S"` payload |
| Content.FlattenResponse | content/main.py:92-100 | flattening succeeds exactly when every item does; same number and order of items, each the flattening of its input |
| Content.FlattenUndoesTagging | content/main.py:92-100 | flattening string-tagged records gives back exactly those records |
| Content.GetMusic | content/main.py:31-80 | 400 exactly when no criterion is given; otherwise the flattened scan result, or 500 when a returned value is not string-tagged; every returned record is the flattening of a matching table item |
| Decimal.NatToString | content/main.py:61 | `str` of a non-negative int is a non-empty digit string without leading zeros |
| Decimal.IntToString | content/main.py:61 | `str` of an int is non-empty and starts with `-` exactly for negatives |
| Decimal.ParseNatToString | content/main.py:61 | parsing the digits `str` writes gives back the non-negative int |
| Decimal.IntRoundTrip | content/main.py:35-61 | `int(str(year)) == year` for every int, so the placeholder value determines the year |
| Decimal.IntToStringInjective | content/main.py:61 | different years give different placeholder values |
| Strings.Join | content/main.py:63 | joining no parts gives the empty string, one part gives that part, and otherwise the result starts with the first part |
| Strings.JoinSnoc | content/main.py:63 | joining one more clause puts exactly one separator before it |
| Strings.JoinLength | content/main.py:63 | a join is as long as its parts plus one separator between each neighbouring pair |
| Frontend.Concat | musify/app.py:107-108 | flattening no lists gives the empty list; the first sublist is a prefix of the result, and every sublist's elements occur in it at least as often as in that sublist |
| Frontend.ConcatLength | musify/app.py:107-108 | the flattened list is as long as all sublists together |
| Frontend.ConcatAppend | musify/app.py:107-108 | flattening is in order: flattening `a + b` is flattening `a` followed by flattening `b` |
| Frontend.ConcatOfEmpties | musify/app.py:107-108 | flattening no lists, or only empty lists, gives the empty list |
| Frontend.ConcatMembers | musify/app.py:107-108 | an element is in the flattened list exactly when it is in one of the sublists |
| Frontend.QueryString | musify/app.py:155-167 | the query is the `&`-join of the non-empty fields as `key=value` in the order title, artist, year, with a leading `&` exactly when the title is empty and another field is not; it starts with `title=<title>` exactly when the title is non-empty; it is empty exactly when all three are |
| Frontend.AssembledIsJoin | musify/app.py:161-167 | the three optional `+=` pieces equal the `&`-join of the given pairs after the stray `&` |
| Frontend.AssembledPrefix | musify/app.py:161-167 | the `title=` prefix appears exactly when the title is non-empty; the pieces are empty exactly when all fields are |
| Frontend.Lookups | musify/app.py:97-101 | one content answer per subscribed title, in list order, the i-th being the answer to the query `title=<i-th title>` |
| Frontend.SubscribedMusic | musify/app.py:90-104 | the result is the in-order concatenation of one content lookup `title=<t>` per subscribed title, as long as all answers together |
| Frontend.SubscribedMusicAfterAdd | musify/app.py:99-108 | after one more subscription the home page list is the old list followed by that title's records |
| MusicLoader.HostFromParts | admin/music_loader.py:87-89 | the bucket and region give the host `https://s3897093-rmit-song-images.s3.us-east-1` |
| MusicLoader.UrlPrefixFromParts | admin/music_loader.py:87-89 | the bucket and region put together give the prefix `https://s3897093-rmit-song-images.s3.us-east-1.amazonaws.com/` |
| MusicLoader.S3Url | admin/music_loader.py:85-89 | the image address is that fixed prefix followed by the title |
| MusicLoader.S3UrlRoundTrip | admin/music_loader.py:85-89 | the title can be read back from its address |
| MusicLoader.S3UrlInjective | admin/music_loader.py:85-89 | different titles never share an image address |
| MusicLoader.UploadKey | admin/s3_loader.py:37-41 | the uploaded image's key is the title, a dash, then the artist |
| MusicLoader.S3UrlMissesUploadedImage | admin/s3_loader.py:37-41 | for every title and artist, the address `determine_s3_url` gives a song differs from the address of the object uploaded for that song |
| MusicLoader.Song.constructor | admin/music_loader.py:8-14 | a song entry holds the given title, artist, year, web and image URLs |
| MusicLoader.ReplaceImgUrls | admin/music_loader.py:92-96 | returns the same list; afterwards every entry's image URL is `S3Url` of its title, and its title, artist, year and web URL are unchanged |
| MusicLoader.AttributeType | admin/music_loader.py:47-48 | `"S"` exactly for a string key name, `"N"` exactly for an int one |
| MusicLoader.KeyTypeName | admin/music_loader.py:33-36 | the primary-key role is named exactly `"HASH"` and the sort-key role exactly `"RANGE"` |
| MusicLoader.TableRequest | admin/music_loader.py:39-76 | the partition key with type name HASH and the sort key with type name RANGE, each with its own attribute type, and 10 read and 10 write capacity units |

## Left out

- DynamoDB and S3 I/O (`get_item`, `put_item`, `update_item`, `scan`, `create_table`, the table waiter). These are replaced by a map (accounts), a sequence of items (catalog) and a request value (table creation).
- FastAPI routing, Mangum, the `__information__` endpoints, and pydantic's own request validation. Pydantic answers a missing field with 422 before a handler runs. The model keeps the handlers' own `is None` checks, with absent inputs as `None`.
- Concurrency. Each handler runs as one atomic step, so two racing deletes on one account (a stale `list.index` used by a later `REMOVE`) are not modelled.
- Content.Scan: evaluates the structured clauses, not the `FilterExpression` string. It models equality only, and ignores DynamoDB's 1 MB scan pages: the whole table is one page.
- `get_all_music`: a raw scan passthrough.
- Flask sessions, templates, redirects, `validate_login`, `validate_register`, `add_subscription`, `remove_subscription` and `home` in the frontend. These are UI and HTTP plumbing.
- Frontend.SubscribedMusic: the content service call becomes a function `lookup` from the query string to the records. An error body, for example the 400 for an empty title, is not modelled.
- Frontend.QueryString: values are written into the query string without URL escaping, as in the source. How the content service then splits a value containing `&` or `=` is not part of this model.
- Accounts.AccountTable.Register: `subscription` is declared `Optional[str]` with a list default. The model takes it as a list of titles. The only caller (`musify/app.py`, `validate_register`) sends no `subscription`, so the stored list is always the default empty list.
- `read_music_file`, `upload_music_entries` and `main` of the loader, `admin/s3_loader.py` (bucket creation, image download and upload), `image_uploader.py`, `admin/db_loader.py`, `admin/init_login.py`, `loader.py` and `main.py`. These are file and network I/O. Two pieces of logic among them are modelled: the key-type choice (`AttributeType`) and the uploader's object key (`UploadKey`). The uploader's naming does not agree with `S3Url`, as stated above.
