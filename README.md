# AvaMail, modelled in Dafny

AvaMail is a self-hosted mail service. Its pieces:

- A Cloudflare Worker receives mail through Email Routing and stores it in a D1 database.
- The Worker sends mail through the Brevo API.
- The Worker serves a JSON API to a Vue dashboard.
- A setup flow provisions the domain on Cloudflare: the zone, routing, DNS and a catch-all rule that sends every message to the Worker.

This project models the core of that system and proves properties of the model:

- the intake of an inbound message;
- the database layer;
- the API routes for auth, emails, settings and setup, with the router around them and the rate limiter;
- the Cloudflare and Brevo client libraries;
- shared utilities and validation;
- the dashboard's API client, its two stores and its navigation guard.

How the model is built:

- **Database.** The tables are values (`Database.Tables`). Each statement is a `Database.Write`. A write can throw: a countdown `failAfter` decides which write fails first. Reads never fail.
- **Server code.** Every handler that changes the store is a method over the `Database.Queries` class. It is proved equal to a specification function that returns the reply and the new tables. The properties are lemmas about those functions.
- **Dashboard.** The client and the stores are classes whose fields the methods update, proved against state functions in the same way.
- **The outside world.** Network answers, the MIME parser, cryptography, clocks and fresh identifiers are parameters.

Each Dafny module corresponds to one source file:

| module | source file |
|---|---|
| `EmailHandler` | `email-handler.ts` |
| `Database` | `db/queries.ts` |
| `AuthApi` | `api/auth.ts` |
| `EmailsApi` | `api/emails.ts` |
| `SettingsApi` | `api/settings.ts` |
| `SetupApi` | `api/setup.ts` |
| `Routes` | `api/routes.ts` |
| `RateLimit` | `lib/rate-limit.ts` |
| `Utils` | `lib/utils.ts` |
| `Validation` | `lib/validation.ts` |
| `CloudflareEmailApi` | the Cloudflare library's `index.ts` |
| `CloudflareDomains` | its `domains.ts` |
| `CloudflareRouting` | its `routing.ts` |
| `CloudflareClient` | its `client.ts` |
| `CloudflareService` | the fake provider the Cloudflare modules run against |
| `BrevoClient` | the Brevo library's `client.ts` |
| `BrevoMessages` | its `messages.ts` |
| `ApiClient` | the frontend's `api/client.ts` |
| `EmailsStore` | `stores/emails.ts` |
| `AuthStore` | `stores/auth.ts` |
| `Router` | `router/index.ts` |

Shared foundations live in their own modules: `Wrappers`, `Text`, `Json`, `Http`, `Bytes`, `Base64` (RFC 4648 section 4) and `Expiry` (the text form of instants).

## Model

| member | source | states |
|---|---|---|
| Database.SettingOf | packages/worker/src/db/queries.ts:55-61 | `getSetting` returns null exactly when no row has the key, and otherwise a value stored under that key |
| Database.SettingsMapKeys | packages/worker/src/db/queries.ts:74-84 | `getAllSettings` has one entry per key in the table and no other |
| Database.SettingsMapUnique | packages/worker/src/db/queries.ts:74-84 | with unique keys, `getAllSettings` and `getSetting` agree on every key |
| Database.UpsertReads | packages/worker/src/db/queries.ts:63-72 | after `setSetting(key, value)` the key reads back as value and every other key reads as before |
| Database.UpsertRows | packages/worker/src/db/queries.ts:63-72 | the upsert adds a row only when the key was absent; otherwise it updates in place and keeps the other rows |
| Database.UpsertUnique | packages/worker/src/db/queries.ts:63-72 | `ON CONFLICT(key)` keeps the setting keys unique |
| Database.WithRead | packages/worker/src/db/queries.ts:168-180 | `markAsRead` / `markAsUnread` set `is_read` on the row with that id only; the other rows and the key set are unchanged |
| Database.WithStarToggled | packages/worker/src/db/queries.ts:182-187 | `toggleStar` negates `is_starred` on that row only |
| Database.WithDefault | packages/worker/src/db/queries.ts:242-248 | the two statements of `setDefaultAddress` leave `is_default` 1 on row `id` and 0 on every other row |
| Database.LiveSession | packages/worker/src/db/queries.ts:258-263 | on integer instants, the corrected time order of the Findings: `getSessionByToken` returns a session with that token whose expiry is after now, or null exactly when there is none |
| Database.WithoutToken | packages/worker/src/db/queries.ts:265-270 | `deleteSession` removes exactly the sessions with that token |
| Database.Unexpired | packages/worker/src/db/queries.ts:272-277 | on integer instants, the corrected time order of the Findings: `cleanExpiredSessions` keeps exactly the sessions whose expiry is not before now; one expiring at now stays |
| Database.WithoutAttachmentsOf | packages/worker/src/db/queries.ts:311-316 | `deleteAttachmentsByEmailId` removes exactly that email's attachments |
| Database.AttachmentsOf | packages/worker/src/db/queries.ts:303-309 | `getAttachmentsByEmailId` returns only rows of that email, and every one of them, without content |
| Database.AttachmentsOfFrom | packages/worker/src/db/queries.ts:303-309 | every row listed is the summary of a stored attachment of that email |
| Database.AttachmentsOfAppend | packages/worker/src/db/queries.ts:303-309 | the rows keep table order: those of a table's first stretch come before those of the rest |
| Database.AttachmentById | packages/worker/src/db/queries.ts:296-301 | `getAttachment` returns a stored row with that id, or null when none has it |
| Database.Step | packages/worker/src/db/queries.ts:50-316 | a statement that throws changes nothing; one that succeeds applies its write |
| Database.SettingWrites | packages/worker/src/db/queries.ts:63-72 | a list of `setSetting` calls is one write per pair, in pair order |
| Database.Assigned | packages/worker/src/db/queries.ts:63-72 | a key is assigned by a list of pairs exactly when some pair names it |
| Database.RunSettingWrites | packages/worker/src/db/queries.ts:63-72 | settings writes touch only the settings table; when all succeed, each key reads the value of its last pair and every other key is unchanged |
| Database.RunSettingWritesUnassigned | packages/worker/src/db/queries.ts:63-72 | a key that no pair assigns keeps its value, even when the run throws part way |
| Database.RunFailsFrom | packages/worker/src/db/queries.ts:50-316 | once a statement has thrown, the later statements never run |
| Database.ApplyKeepsValid | packages/worker/src/db/queries.ts:88-316 | every accepted write of a well-formed row keeps the store valid: rows stored under their own ids, flags 0 or 1, unique setting keys, unique session and attachment ids |
| Database.SetDefaultLeavesOne | packages/worker/src/db/queries.ts:242-248 | after `setDefaultAddress(id)` at most one address is default, and it is the one with that id |
| Database.ToggleTwice | packages/worker/src/db/queries.ts:182-187 | toggling the star twice gives back the valid store |
| Database.DeleteAttachmentsKeepsOthers | packages/worker/src/db/queries.ts:311-316 | after the delete, that email has no attachments and every other email has the same attachments, in order |
| Database.StatsBounds | packages/worker/src/db/queries.ts:196-216 | unread counts only received rows: unread <= received, received + sent = all rows, starred <= all rows |
| Database.MarkReadStats | packages/worker/src/db/queries.ts:168-173 | marking a received unread email read lowers the unread count by exactly one |
| Database.BuildConditions | packages/worker/src/db/queries.ts:130-144 | the condition list is type, unread, starred in that order; only the type test has a placeholder |
| Database.QueryPlaceholders | packages/worker/src/db/queries.ts:146-160 | the statement has the conditions' placeholders plus one each for a truthy LIMIT and OFFSET |
| Database.TypeCondition | packages/worker/src/db/queries.ts:133-136 | a truthy type text adds `type = ?` as the first condition; without one no condition tests the type |
| Database.TypeBound | packages/worker/src/db/queries.ts:133-136 | the type text is bound as given as the first parameter; without one every parameter is a number |
| Database.ListEmailsQuery | packages/worker/src/db/queries.ts:120-166 | `listEmails` adds WHERE only when there is a condition, always orders newest first, and matches each `?` to one parameter |
| Database.Queries.constructor | packages/worker/src/db/queries.ts:50-51 | the query object wraps the given tables |
| Database.Queries.Perform | packages/worker/src/db/queries.ts:50-316 | one statement run against the fields, as `Step` states |
| Database.Queries.SetSetting | packages/worker/src/db/queries.ts:63-72 | the upsert statement, as `Step` states |
| Database.Queries.CreateEmail | packages/worker/src/db/queries.ts:88-111 | inserts the row, and throws on a taken id |
| Database.Queries.MarkAsRead | packages/worker/src/db/queries.ts:168-173 | the `is_read = 1` update |
| Database.Queries.MarkAsUnread | packages/worker/src/db/queries.ts:175-180 | the `is_read = 0` update |
| Database.Queries.ToggleStarOf | packages/worker/src/db/queries.ts:182-187 | the `NOT is_starred` update |
| Database.Queries.DeleteEmailRow | packages/worker/src/db/queries.ts:189-194 | deletes the email row only |
| Database.Queries.CreateAddress | packages/worker/src/db/queries.ts:219-226 | inserts the address |
| Database.Queries.DeleteAddressRow | packages/worker/src/db/queries.ts:235-240 | deletes the address |
| Database.Queries.SetDefault | packages/worker/src/db/queries.ts:242-248 | the two-statement batch |
| Database.Queries.CreateSession | packages/worker/src/db/queries.ts:251-256 | inserts the session |
| Database.Queries.DeleteSessionByToken | packages/worker/src/db/queries.ts:265-270 | deletes the sessions holding the token |
| Database.Queries.CleanExpired | packages/worker/src/db/queries.ts:272-277 | one store statement that, unless it throws, deletes exactly the sessions whose expiry is before now, on integer instants (the corrected time order) |
| Database.Queries.CreateAttachment | packages/worker/src/db/queries.ts:280-294 | appends the attachment row |
| Database.Queries.DeleteAttachmentsByEmailId | packages/worker/src/db/queries.ts:311-316 | removes that email's attachments |
| Database.Queries.GetSetting | packages/worker/src/db/queries.ts:55-61 | null exactly when no row has the key; otherwise a row holds that key and value |
| Database.Queries.GetAllSettings | packages/worker/src/db/queries.ts:74-84 | the loop fills one entry per row key; with unique keys each entry is that row's value |
| Database.Queries.GetEmail | packages/worker/src/db/queries.ts:113-118 | the row with that id, or null exactly when there is none |
| Database.Queries.GetEmailStats | packages/worker/src/db/queries.ts:196-216 | the four counts, with unread <= received and received + sent = all rows |
| Database.Queries.GetSessionByToken | packages/worker/src/db/queries.ts:258-263 | on integer instants, the corrected time order: a live session with the token, or null exactly when none is live |
| Database.Queries.GetAttachment | packages/worker/src/db/queries.ts:296-301 | the attachment with that id |
| Database.Queries.GetAttachmentsByEmailId | packages/worker/src/db/queries.ts:303-309 | that email's attachments, without content, in table order; each entry is the summary of a stored attachment of that email |
| EmailHandler.KeptAttachments | packages/worker/src/email-handler.ts:66-72 | the stored attachments are exactly the parsed ones that pass the size test; none is added |
| EmailHandler.AttachmentWrites | packages/worker/src/email-handler.ts:74-84 | one insert per kept attachment: the k-th takes the (k+1)-th fresh id and the message's id |
| EmailHandler.Uint8ArrayToBase64 | packages/worker/src/email-handler.ts:14-20 | the loop of one char code per byte, then `btoa`, gives the RFC 4648 section 4 encoding of the bytes |
| EmailHandler.HandleEmail | packages/worker/src/email-handler.ts:26-104 | the handler's writes, outcome and forward are those of `Intake` |
| EmailHandler.StoreAttachments | packages/worker/src/email-handler.ts:66-88 | the for-of loop with `continue` performs exactly the kept attachments' inserts, stopping at the first throw |
| EmailHandler.AttachmentContent | packages/worker/src/email-handler.ts:75 | the stored content is the base64 encoding of the attachment's bytes |
| EmailHandler.RunAttachmentWrites | packages/worker/src/email-handler.ts:77-84 | successful attachment inserts append their rows and touch nothing else |
| EmailHandler.IntakeStored | packages/worker/src/email-handler.ts:48-88 | after a successful run, the received row is stored under the fresh id and the kept attachments follow in parsed order; settings, addresses and sessions are unchanged |
| EmailHandler.AttachmentRowsShape | packages/worker/src/email-handler.ts:77-84 | each row belongs to the new message and has the exact byte size and a content that decodes back to the bytes; the filename and content type default to `unnamed` and `application/octet-stream` |
| EmailHandler.KeptAppend | packages/worker/src/email-handler.ts:67-72 | filtering keeps the parsed order |
| EmailHandler.KeptSingle | packages/worker/src/email-handler.ts:69-72 | an attachment is skipped iff it is longer than 5 MiB; one of exactly 5 MiB is stored |
| EmailHandler.EmailRowShape | packages/worker/src/email-handler.ts:48-63 | the row is received, unread and unstarred, with bcc and mailgun id null, the raw size and headers, the subject defaulting to `(No Subject)`, empty bodies as null, and cc as the joined addresses or null |
| EmailHandler.IntakeOutcome | packages/worker/src/email-handler.ts:32-103 | a parse failure writes nothing; a store failure is rethrown; after all writes the message is forwarded exactly when `destination_email` is set, to that address, and a forward failure is rethrown |
| Base64.ValueOf | packages/worker/src/email-handler.ts:19 | the decoding table inverts the alphabet: a character has a value iff it is in the alphabet |
| Base64.Encode | packages/worker/src/email-handler.ts:19 | the encoding's length is a multiple of four, and non-empty for non-empty input |
| Base64.DecodeGroup | packages/worker/src/api/emails.ts:124 | a decoded group yields 1 to 3 bytes, and fewer than 3 only at the end of the input |
| Base64.DecodeEncode | packages/worker/src/email-handler.ts:14-20 | decoding an encoding gives back the bytes (RFC 4648 section 4 round trip) |
| Base64.EncodeShape | packages/worker/src/email-handler.ts:19 | every character of an encoding is in the alphabet, except at most two `=` at the end; there is no padding when three divides the length |
| Base64.EncodeEnd | packages/worker/src/email-handler.ts:19 | the padding the encoding ends with is set by the input length modulo three |
| Base64.PadCountOfEncode | packages/worker/src/email-handler.ts:19 | the padding is 0 characters when three divides the length, otherwise 3 - n mod 3 |
| Base64.EncodeLength | packages/worker/src/email-handler.ts:19 | the encoding has four characters per started group of three bytes |
| Base64.SizeEstimate | packages/worker/src/api/emails.ts:240 | floor(len * 3 / 4) of an encoding is the byte count plus the padding, so the estimate is exact iff there is no padding |
| Base64.Btoa | packages/worker/src/email-handler.ts:19 | `btoa` of a binary string is the encoding of its char codes |
| Base64.StripWhite | packages/worker/src/api/emails.ts:124 | `atob` first drops tab, line feed, form feed, carriage return and space and keeps every other character |
| Base64.Unpadded | packages/worker/src/api/emails.ts:124 | a text whose length four divides loses the `=` padding it ends with, and nothing else |
| Base64.ForgivingDecode | packages/worker/src/api/emails.ts:124 | the forgiving-base64 decode of the WHATWG Infra Standard: it succeeds exactly when the text left is alphabet characters of a length other than 1 modulo four, with three bytes per four characters |
| Base64.RepadDecodes | packages/worker/src/api/emails.ts:124 | such alphabet text always decodes, to `floor(len * 3 / 4)` bytes |
| Base64.Atob | packages/worker/src/api/emails.ts:124 | `atob` fails exactly when the forgiving decode does, and otherwise returns the binary string of the decoded bytes |
| Base64.ForgivingEncode | packages/worker/src/api/emails.ts:124 | `atob` reads every RFC 4648 encoding back as its bytes |
| Base64.ForgivingUnpadded | packages/worker/src/api/emails.ts:124 | `atob` also reads an encoding whose padding was left off |
| Base64.ForgivingSkipsWhite | packages/worker/src/api/emails.ts:124 | white space anywhere in the text changes nothing |
| Base64.AtobWithoutPadding | packages/worker/src/api/emails.ts:124 | `atob("QQ")` and `atob("QQ==")` are both `A`, though strict decoding refuses `QQ` |
| Base64.AtobBtoa | packages/worker/src/email-handler.ts:14-20 | `atob(btoa(s))` gives back every binary string s |
| Bytes.Latin1 | packages/worker/src/email-handler.ts:16-18 | the binary string has one char per byte, each with that byte's code |
| Bytes.CharCodesOfLatin1 | packages/worker/src/email-handler.ts:16-18 | the char codes of the binary string are the bytes |
| Expiry.PadOrder | packages/worker/src/db/queries.ts:260 | zero-padded numbers of one width compare as text exactly as they compare as numbers |
| Expiry.IsoOrder | packages/worker/src/api/auth.ts:42 | two ISO `toISOString` texts compare as text exactly as their instants compare in time |
| Expiry.SameDateAlwaysLive | packages/worker/src/db/queries.ts:260 | on the expiry date itself, `expires_at > datetime('now')` as written always holds and `<` never does, whatever the times |
| Expiry.OtherDateAgrees | packages/worker/src/db/queries.ts:260 | on any other date the comparison as written agrees with the time order |
| Expiry.ExpiredSessionStillLive | packages/worker/src/db/queries.ts:258-263 | as written, a session that expired at 10:00 is still accepted at 12:00 on the same day |
| Expiry.CorrectedFollowsTime | packages/worker/src/db/queries.ts:258-263 | with both sides in the ISO form, live means exactly that now is before the expiry, and expired means its mirror |
| EmailsApi.ParseInt | packages/worker/src/api/emails.ts:20-21 | `parseInt` with no radix is NaN exactly when no digit follows the white space, sign and hex prefix |
| EmailsApi.ParseIntNatToString | packages/worker/src/api/emails.ts:20-21 | `parseInt` reads the decimal text of every natural number back as that number |
| EmailsApi.KindFilter | packages/worker/src/api/emails.ts:19 | the `type` query text is passed on exactly when it is truthy, whatever it says: the cast checks nothing |
| EmailsApi.ListRoute | packages/worker/src/api/emails.ts:15-43 | `GET /` answers 200, and builds the `listEmails` statement and parameters from the query's type, unread, starred, limit and offset |
| EmailsApi.HandleList | packages/worker/src/api/emails.ts:15-43 | the handler computes that answer, and every placeholder of its statement has a parameter |
| EmailsApi.ListTypeFilter | packages/worker/src/api/emails.ts:19 | a truthy `type`, `foo` included, is the first condition `type = ?` and is bound as the first parameter; without one no condition tests the type and only numbers are bound |
| EmailsApi.ListDefaults | packages/worker/src/api/emails.ts:20-21 | with no limit and no offset the page is the first 50 rows: LIMIT 50 is bound and the falsy offset 0 is not sent |
| EmailsApi.ListNumbers | packages/worker/src/api/emails.ts:20-21 | decimal limit and offset are used as given |
| EmailsApi.HandleStats | packages/worker/src/api/emails.ts:48-58 | `GET /stats` answers the four counts, with unread <= received and received + sent = all rows |
| EmailsApi.InfoList | packages/worker/src/api/emails.ts:96-107 | the attachments list has one entry per stored attachment, in order |
| EmailsApi.HandleGetEmail | packages/worker/src/api/emails.ts:63-91 | the handler computes `GetEmailRoute` |
| EmailsApi.GetEmailShowsStore | packages/worker/src/api/emails.ts:63-91 | a missing id is a 404 that changes nothing; a 200 shows the row and its attachments as they are stored afterwards |
| EmailsApi.GetEmailMarksRead | packages/worker/src/api/emails.ts:74-78 | reading a received unread email marks that row read and lowers the unread count by one; a sent or already read email causes no write |
| EmailsApi.GetEmailTwice | packages/worker/src/api/emails.ts:74-78 | a second read writes nothing |
| EmailsApi.HandleAttachments | packages/worker/src/api/emails.ts:96-107 | `GET /:id/attachments` lists every stored attachment of that email, without its content |
| EmailsApi.HandleDownload | packages/worker/src/api/emails.ts:112-141 | the handler decodes the text with `atob` and fills a byte array with one char code per position |
| EmailsApi.CharCodesOf | packages/worker/src/api/emails.ts:125-128 | the loop fills the array with exactly the char codes of the binary string |
| EmailsApi.DownloadDecodes | packages/worker/src/api/emails.ts:112-141 | the attachment is found by its own id, whatever email id the path names; a missing one is a 404, text `atob` refuses a 500, otherwise the body is exactly its forgiving decoding |
| EmailsApi.DownloadRoundTrip | packages/worker/src/api/emails.ts:124-128 | an attachment stored as the base64 of some bytes downloads as those bytes |
| EmailsApi.FirstMatch | packages/worker/src/api/emails.ts:189 | the lazy `(.+?)` takes the least position at which the whole expression matches |
| EmailsApi.ParseEmail | packages/worker/src/api/emails.ts:188-194 | `parseEmail` gives a name exactly when `Name <addr>` matches; otherwise the address is the trimmed text; the results are trimmed |
| EmailsApi.ParseEmailPlain | packages/worker/src/api/emails.ts:188-194 | text without `<` is the trimmed address alone |
| EmailsApi.ParseEmailNamed | packages/worker/src/api/emails.ts:188-194 | `Name <addr>` written the usual way reads back as that name and that address |
| EmailsApi.ProviderAttachments | packages/worker/src/api/emails.ts:197-201 | each attachment goes to the provider with its file name as name, its content and its type |
| EmailsApi.AddressIfPresent | packages/worker/src/api/emails.ts:207-212 | cc, bcc and reply-to are parsed exactly when they are truthy |
| EmailsApi.OptionsFor | packages/worker/src/api/emails.ts:204-214 | the provider gets the parsed from and to, the subject and bodies as given, no headers or tags, and cc, bcc and attachments only when sent |
| EmailsApi.SentSizeExact | packages/worker/src/api/emails.ts:240 | the corrected size is the exact byte length of any base64 text |
| EmailsApi.AsWrittenSizeOverstates | packages/worker/src/api/emails.ts:240 | floor(len * 3 / 4) overstates the byte length by the padding; one byte, `QQ==`, is recorded as 3 |
| EmailsApi.SentAttachmentRows | packages/worker/src/api/emails.ts:236-250 | one row per attachment, in request order: the k-th under the (k+1)-th fresh id and the message's id, with its file name and text and the size `floor(len * 3 / 4)` of that text |
| EmailsApi.HandleSend | packages/worker/src/api/emails.ts:146-262 | the handler's reply, writes and provider request are those of `SendEmail` |
| EmailsApi.StoreSentAttachments | packages/worker/src/api/emails.ts:236-250 | the attachment loop performs those inserts in order, sized `floor(len * 3 / 4)`, and stops at the first throw |
| EmailsApi.SendValidatesFirst | packages/worker/src/api/emails.ts:165-180 | missing from, to or subject, then a missing body, then a missing Brevo key, each give a 400 with no provider call and no write; no other outcome is a 400 |
| EmailsApi.SendRequestShape | packages/worker/src/api/emails.ts:176-214 | the one provider request is a POST to the send endpoint with the stored key and the message built from the body |
| EmailsApi.SendFailureWritesNothing | packages/worker/src/api/emails.ts:257-261 | a provider failure answers 500 with its message and writes nothing |
| EmailsApi.SendStores | packages/worker/src/api/emails.ts:204-250 | a 200 means the provider accepted the message and the store holds the sent row and its attachments in request order; nothing else changed |
| EmailsApi.SentRowShape | packages/worker/src/api/emails.ts:218-233 | the sent row is read, unstarred, without headers or raw size, with the request's addresses and subject and the provider's message id or null |
| EmailsApi.SentAttachmentShape | packages/worker/src/api/emails.ts:239-247 | a sent attachment keeps its name and content, defaults its type to `application/octet-stream`, and records `floor(len * 3 / 4)` of its text, which for the base64 of n bytes is n plus the padding, exact only when three divides n |
| EmailsApi.HandleMarkRead | packages/worker/src/api/emails.ts:267-278 | the handler computes `MarkReadRoute` |
| EmailsApi.HandleMarkUnread | packages/worker/src/api/emails.ts:283-294 | the handler computes `MarkUnreadRoute` |
| EmailsApi.HandleStar | packages/worker/src/api/emails.ts:299-310 | the handler computes `StarRoute` |
| EmailsApi.HandleDelete | packages/worker/src/api/emails.ts:315-326 | the handler computes `DeleteRoute` |
| EmailsApi.FlagRoutesEffect | packages/worker/src/api/emails.ts:267-326 | each flag route succeeds whether or not the id exists; it sets or flips that one flag, or removes that one row, and leaves the rest |
| EmailsApi.StarTwice | packages/worker/src/api/emails.ts:299-310 | starring twice gives back the rows |
| EmailsApi.ReadThenUnread | packages/worker/src/api/emails.ts:267-294 | marking an unread email read and then unread gives back the rows |
| AuthApi.BearerToken | packages/worker/src/api/auth.ts:72 | the token taken from `Authorization` after dropping `Bearer `, and only when it is not empty |
| AuthApi.BearerRoundTrip | packages/worker/src/api/auth.ts:229 | the header the client sends, `Bearer <token>`, gives back that token |
| AuthApi.NewSession | packages/worker/src/api/auth.ts:41-48 | a new session has a 96-character token (48 random bytes in hex), expires seven days after `now` and is live at `now` |
| AuthApi.SessionReplyFields | packages/worker/src/api/auth.ts:53-57 | the login/setup reply is 200 and carries the session's token and expiry |
| AuthApi.HandleLogin | packages/worker/src/api/auth.ts:15-62 | the handler's reply and store are those of the login specification |
| AuthApi.LoginRejections | packages/worker/src/api/auth.ts:20-38 | 400 exactly without a password, 401 exactly without a stored hash or with a password it rejects, nothing written on either, 200 exactly when the password verifies and both statements succeed |
| AuthApi.LoginCreatesSession | packages/worker/src/api/auth.ts:41-57 | a successful login answers with the new session's token and leaves the store its two statements produce |
| AuthApi.LoginWritesEffect | packages/worker/src/api/auth.ts:44-51 | on integer instants, the corrected time order: the new session is stored and live until it expires, every expired session is dropped, and no other table changes |
| AuthApi.HandleLogout | packages/worker/src/api/auth.ts:67-83 | the handler's reply and store are those of the logout specification |
| AuthApi.LogoutEndsSession | packages/worker/src/api/auth.ts:72-76 | after a successful logout no session answers to the token, at any time |
| AuthApi.HandleSetup | packages/worker/src/api/auth.ts:88-127 | the handler's reply and store are those of the setup specification |
| AuthApi.SetupGate | packages/worker/src/api/auth.ts:92-106 | setup is refused with nothing written once a hash is stored or for a password under eight UTF-16 code units; success stores a hash that accepts the password |
| AuthApi.SetupOnlyOnce | packages/worker/src/api/auth.ts:92-96 | after a successful setup every further setup answers 400 `Already setup` and writes nothing |
| AuthApi.SetupThenLogin | packages/worker/src/api/auth.ts:104-106 | the password chosen at setup logs in: the next login answers 200 unless the store throws |
| AuthApi.HandleAuthStatus | packages/worker/src/api/auth.ts:132-165 | the reply is 200 with the two status flags computed from the header and the store |
| AuthApi.HandleChangePassword | packages/worker/src/api/auth.ts:170-215 | the handler's reply and store are those of the change-password specification |
| AuthApi.ChangePasswordGate | packages/worker/src/api/auth.ts:174-210 | the hash changes only for a live session that knows the current password and gives a new one of at least eight UTF-16 code units; the new hash accepts it and sessions are untouched |
| AuthApi.AuthMiddleware | packages/worker/src/api/auth.ts:222-242 | the middleware's decision is the gate computed from the header and the store |
| AuthApi.GateAgreesWithStatus | packages/worker/src/api/auth.ts:228-241 | the gate lets a request through exactly when the status route reports it authenticated, otherwise 401; unauthenticated status reports setup needed exactly when no hash is stored |
| AuthApi.LoginOpensGate | packages/worker/src/api/auth.ts:41-48 | the token a login hands out opens the protected routes for the following seven days |
| SettingsApi.HandleGetSettings | packages/worker/src/api/settings.ts:31-52 | `GET /` returns every stored setting with each non-empty sensitive value masked |
| SettingsApi.MaskAllShows | packages/worker/src/api/settings.ts:39-45 | the masked dictionary has the same keys; a sensitive key shows the mask or the empty text, any other key its value |
| SettingsApi.MaskHidesSecrets | packages/worker/src/api/settings.ts:22-26 | two stores differing only in non-empty secret values look the same through `GET /` |
| SettingsApi.HandleGetOne | packages/worker/src/api/settings.ts:57-79 | `GET /:key` answers as the single-key specification |
| SettingsApi.GetOneShows | packages/worker/src/api/settings.ts:63-74 | 400 exactly for a key outside the allowed list (so never the password hash); an allowed sensitive key shows the mask for a non-empty value; any other allowed key its value or null |
| SettingsApi.KeyIndex | packages/worker/src/api/settings.ts:87 | the position of the first entry with the key, or the length when no entry has it |
| SettingsApi.PutKey | packages/worker/src/api/settings.ts:87 | setting a property keeps every existing key at its position, changes only that key's entry, and appends a new key last |
| SettingsApi.PutKeyReads | packages/worker/src/api/settings.ts:87 | on an object, setting a property keeps the keys distinct and changes what that key alone reads |
| SettingsApi.Collapse | packages/worker/src/api/settings.ts:87 | the body parses to an object with distinct keys in which every key reads the value of its last pair |
| SettingsApi.CollapseDistinct | packages/worker/src/api/settings.ts:87 | a body that repeats no key parses to itself |
| SettingsApi.RepeatedKey | packages/worker/src/api/settings.ts:87 | a repeated key stays at its first position and takes its last value |
| SettingsApi.CollapseKeys | packages/worker/src/api/settings.ts:87 | the parsed object has exactly the keys of the body |
| SettingsApi.CollapseAllowed | packages/worker/src/api/settings.ts:87-95 | the parsed object keeps to the allowed keys exactly when the body does |
| SettingsApi.NamesAllowed | packages/worker/src/api/settings.ts:91-95 | validation passes an object exactly when all of its keys are allowed |
| SettingsApi.CollapseRefuses | packages/worker/src/api/settings.ts:87-95 | validation of the parsed body passes exactly when every key of the body is allowed |
| SettingsApi.FirstInvalid | packages/worker/src/api/settings.ts:91-95 | none exactly when every key is allowed; otherwise the earliest key outside the allowed list |
| SettingsApi.Names | packages/worker/src/api/settings.ts:91 | the keys of the parsed object, in its order |
| SettingsApi.Unmasked | packages/worker/src/api/settings.ts:98-102 | exactly the entries of the parsed object whose value is not the mask |
| SettingsApi.UnmaskedPrefix | packages/worker/src/api/settings.ts:98-102 | the unmasked entries of a prefix of the body are a prefix of those of the body |
| SettingsApi.UnmaskedStep | packages/worker/src/api/settings.ts:98-102 | one more entry of the body adds one write exactly when its value is not the mask |
| SettingsApi.UnmaskedAssigned | packages/worker/src/api/settings.ts:98-102 | on an object, a key whose value is the mask assigns nothing and any other key assigns its value |
| SettingsApi.WritesPrefix | packages/worker/src/api/settings.ts:98-102 | the writes of a prefix of the body are a prefix of the body's writes |
| SettingsApi.ValidateKeys | packages/worker/src/api/settings.ts:91-95 | the validation loop finds the first key outside the allowed list |
| SettingsApi.WriteUnmasked | packages/worker/src/api/settings.ts:98-103 | the write loop performs one `setSetting` per unmasked entry of the parsed object, in order, stopping at the first that throws |
| SettingsApi.HandlePutAll | packages/worker/src/api/settings.ts:84-110 | `PUT /` parses the body into an object, then answers and writes as its specification |
| SettingsApi.PutAllWrites | packages/worker/src/api/settings.ts:98-103 | the writes of a parsed body leave alone every key the body does not name or whose last pair is the mask; if they all succeed every other key of the body reads its last value; only the settings table changes |
| SettingsApi.PutAllRefusal | packages/worker/src/api/settings.ts:84-95 | a 400 happens exactly when some key of the body is not allowed, and then nothing is written |
| SettingsApi.PutAllEffect | packages/worker/src/api/settings.ts:84-110 | only allowed keys change, and only keys whose last pair is not the mask; after a 200 each of those reads back its last value; no other table changes |
| SettingsApi.HandlePutOne | packages/worker/src/api/settings.ts:115-139 | `PUT /:key` answers and writes as its specification |
| SettingsApi.PutOneEffect | packages/worker/src/api/settings.ts:121-134 | an invalid key is refused and the mask is a no-op, both with nothing written; otherwise the key reads back after a 200 and no other key changes |
| SettingsApi.CompletionFlagWritable | packages/worker/src/api/settings.ts:18 | `setup_completed` is writable here, so one call marks setup complete regardless of configuration |
| SetupApi.HandleStatus | packages/worker/src/api/setup.ts:16-46 | `GET /status` answers 200 with the summary computed from all settings |
| SetupApi.StatusMeansSettings | packages/worker/src/api/setup.ts:22-40 | Cloudflare is configured exactly when key, account and zone are non-empty, Brevo when its key is, and setup is complete only when the flag is the text `true` |
| SetupApi.SettingsMapAgrees | packages/worker/src/api/setup.ts:20 | with unique keys, `getAllSettings` agrees with the single-key lookup |
| SetupApi.HandleCloudflare | packages/worker/src/api/setup.ts:51-141 | `POST /cloudflare` answers, writes and calls the provider as its specification |
| SetupApi.ZoneJsonShows | packages/worker/src/api/setup.ts:111-116 | the zone object of the reply carries the zone's id and its name servers |
| SetupApi.CloudflareSuccessShows | packages/worker/src/api/setup.ts:109-129 | the 200 reply is a success naming the zone, with its name servers, and says setup is complete exactly when the zone is active |
| SetupApi.SaveCloudflareSettings | packages/worker/src/api/setup.ts:101-107 | the settings writes are performed in order, stopping at the first that throws |
| SetupApi.SavedStep | packages/worker/src/api/setup.ts:101-107 | each write extends the run of the writes so far; a throw ends the whole run there |
| SetupApi.SettingWritesPrefix | packages/worker/src/api/setup.ts:101-107 | the writes of a prefix of the pairs are a prefix of all writes |
| SetupApi.CloudflareNeedsFields | packages/worker/src/api/setup.ts:67-73 | a missing key, account or domain answers 400 with no provider call and nothing written |
| SetupApi.CloudflareProviderFails | packages/worker/src/api/setup.ts:131-139 | a provider call that throws answers 500 and writes no setting |
| SetupApi.CloudflareSaves | packages/worker/src/api/setup.ts:101-107 | after a 200 the key, account, zone id, domain and (when given) destination read back, and nothing else changes |
| SetupApi.CloudflareAssigned | packages/worker/src/api/setup.ts:101-107 | what the route's pairs assign, key by key, and no other key |
| Database.AssignedAt | packages/worker/src/api/setup.ts:101-107 | the last pair for a key decides its value |
| SetupApi.ProvisionRoutesToWorker | packages/worker/src/api/setup.ts:79-98 | a successful provisioning is for the requested domain and leaves its catch-all rule enabled, matching all and sending to the worker |
| SetupApi.RouteToWorkerEffect | packages/worker/src/api/setup.ts:88-98 | enabling routing, reading DNS and setting the catch-all leave the zone routed to the worker |
| SetupApi.HandleWorkerRouting | packages/worker/src/api/setup.ts:146-181 | `POST /cloudflare/worker-routing` answers and calls the provider as its specification, writing nothing |
| SetupApi.WorkerRoutingEffect | packages/worker/src/api/setup.ts:150-164 | a JSON `null` body is a 500 before any setting is read or any request sent; otherwise without all three settings 400 and no request, else exactly one catch-all PUT naming the given worker or `avamail`, 200 exactly when it succeeds |
| SetupApi.WorkerNameOf | packages/worker/src/api/setup.ts:150-151 | the worker name fails exactly for a `null` body, with the TypeError of reading `workerName` of null, and is never empty otherwise |
| SetupApi.WorkerNameChoice | packages/worker/src/api/setup.ts:150-151 | a non-empty `workerName` is used as given; a missing or unreadable body, an empty name, an object without one or a body that is no object falls back to `avamail`; `null` fails |
| SetupApi.HandleBrevo | packages/worker/src/api/setup.ts:186-224 | `POST /brevo` answers and writes as its specification |
| SetupApi.BrevoKeyStoredOnlyIfVerified | packages/worker/src/api/setup.ts:194-209 | the key is stored only after the account call accepts it, and the reply is 200 exactly then |
| SetupApi.HandleAddAddress | packages/worker/src/api/setup.ts:258-290 | `POST /addresses` answers and writes as its specification |
| SetupApi.AddAddressStored | packages/worker/src/api/setup.ts:268-285 | a 200 adds exactly the new row; a default is then the only default; a non-default is stored with 0; at most one default is kept |
| SetupApi.OneMoreNonDefault | packages/worker/src/api/setup.ts:274-280 | a row stored with 0 neither adds nor removes a default |
| SetupApi.DefaultLeftBehind | packages/worker/src/api/setup.ts:281-283 | when the insert of a default succeeds but clearing the others throws, two defaults remain |
| SetupApi.MissingOf | packages/worker/src/api/setup.ts:333-339 | at most one label per required setting |
| SetupApi.MissingEmptyIff | packages/worker/src/api/setup.ts:333-342 | nothing is missing exactly when every required setting is non-empty |
| SetupApi.MissingReports | packages/worker/src/api/setup.ts:335-339 | each label is reported exactly when its setting is absent or empty |
| SetupApi.MissingFrom | packages/worker/src/api/setup.ts:335-339 | a label no item carries is never reported |
| SetupApi.HandleComplete | packages/worker/src/api/setup.ts:326-359 | `POST /complete` answers and writes as its specification |
| SetupApi.MissingUnfold | packages/worker/src/api/setup.ts:335-339 | the five checks in their source order |
| SetupApi.MissingLast | packages/worker/src/api/setup.ts:335-339 | the `push` of the last check appends its label |
| SetupApi.CompleteGate | packages/worker/src/api/setup.ts:342-351 | 200 exactly when nothing is missing and the flag write succeeds, then the flag reads `true`; 400 exactly when something is missing, with nothing written |
| SetupApi.NothingMissingIff | packages/worker/src/api/setup.ts:333-342 | on a valid store nothing is missing exactly when the five settings are all non-empty |
| SetupApi.CompleteThenStatus | packages/worker/src/api/setup.ts:349 | after a 200 the status reads completed and both providers configured |
| SetupApi.DestinationOptional | packages/worker/src/api/setup.ts:335-339 | the destination address never blocks completion |
| Utils.HexDigit | packages/worker/src/lib/utils.ts:7 | a digit below 16 is written as one lower-case hex character |
| Utils.HexValue | packages/worker/src/lib/utils.ts:7 | a character has a hex value exactly when it is a lower-case hex digit, and that value writes back as the character |
| Utils.HexValueOfDigit | packages/worker/src/lib/utils.ts:7 | reading a written digit gives the digit back |
| Utils.HexByte | packages/worker/src/lib/utils.ts:7 | `toString(16).padStart(2, '0')` gives exactly two lower-case hex characters |
| Utils.Hex | packages/worker/src/lib/utils.ts:7 | the hex text of n bytes is 2n lower-case hex characters |
| Utils.UnhexHex | packages/worker/src/lib/utils.ts:7 | reading the hex text back gives the bytes |
| Utils.HexInjective | packages/worker/src/lib/utils.ts:48 | two byte sequences have the same hex text exactly when they are equal |
| Utils.GenerateToken | packages/worker/src/lib/utils.ts:4-8 | a token from n random bytes is 2n lower-case hex characters that decode to those bytes |
| Utils.XorZero | packages/worker/src/lib/utils.ts:86 | the XOR of two char codes is zero exactly when they are equal |
| Utils.OrZero | packages/worker/src/lib/utils.ts:86 | the OR of two values is zero exactly when both are |
| Utils.TimingSafeEqual | packages/worker/src/lib/utils.ts:80-89 | the loop answers true exactly when the two strings are equal, false at once on different lengths |
| Utils.ActualSalt | packages/worker/src/lib/utils.ts:23 | an absent or empty salt is replaced by a generated one that is never empty and holds no colon |
| Utils.HashFields | packages/worker/src/lib/utils.ts:49 | the stored hash has four colon-separated fields: `pbkdf2`, `100000`, the salt and the hex digest |
| Utils.VerifyPassword | packages/worker/src/lib/utils.ts:56-75 | the method's answer is the verification predicate: PBKDF2 dispatch on the prefix with four fields, otherwise the legacy path |
| Utils.VerifyMeansSameDerivation | packages/worker/src/lib/utils.ts:21-64 | a hash made by `hashPassword` accepts exactly the passwords deriving the same bits under its salt, its own password included |
| Utils.HashInjectiveInDigest | packages/worker/src/lib/utils.ts:49 | under one salt two hashes are equal exactly when their derived bits are |
| Utils.AcceptedPbkdf2Shape | packages/worker/src/lib/utils.ts:58-63 | an accepted `pbkdf2:` hash has four fields and a non-empty salt and is the attempt's hash under that salt |
| Utils.LegacyRoundTrip | packages/worker/src/lib/utils.ts:67-74 | a legacy `salt:hex(sha256(salt+password))` hash accepts its own password |
| Utils.LegacyNotTagged | packages/worker/src/lib/utils.ts:58 | a colon-free salt other than `pbkdf2` never makes a legacy hash take the PBKDF2 path |
| Utils.VerifyToken | packages/worker/src/lib/utils.ts:127-165 | an accepted token has three dot parts, a valid signature over the first two, a payload that decodes, is not null and has not expired |
| Utils.VerifyTokenAntitone | packages/worker/src/lib/utils.ts:157-158 | a token accepted at some time is accepted, with the same payload, at every earlier time |
| Utils.DecimalOfNat | packages/worker/src/lib/utils.ts:157 | the decimal text of a natural number is a run of digits whose value is that number |
| Utils.TextToNumberOfInt | packages/worker/src/lib/utils.ts:157 | `Number` reads an integer's own text back as that integer, negative ones included |
| Utils.ExpiredOf | packages/worker/src/lib/utils.ts:157 | the expiry test on a payload whose one field is `exp`: truthy, and the conversion throws or gives a number below now |
| Utils.TextExpiryAgrees | packages/worker/src/lib/utils.ts:157 | a non-zero integer's text `exp` expires exactly when the integer does |
| Utils.ZeroExpiry | packages/worker/src/lib/utils.ts:157 | the text `0` is truthy and expires once now is positive, the number 0 never expires |
| Utils.TextExpiryCoerces | packages/worker/src/lib/utils.ts:157 | at time 10 the text `5` has expired, the text `20` and a text that is no numeral have not |
| Utils.OtherExpiryCoerces | packages/worker/src/lib/utils.ts:157 | at time 10 `true` and `[5]` have expired, `[5,6]` (NaN) has not |
| Utils.ObjectExpiryThrows | packages/worker/src/lib/utils.ts:157-164 | an `exp` object whose own `toString` is no function makes the comparison throw, so the token is refused |
| Utils.ExpiredTokenRefused | packages/worker/src/lib/utils.ts:157-158 | a well-signed token whose payload fails the expiry test is null, whatever `exp` holds |
| Utils.VerifyTokenWithoutExpiry | packages/worker/src/lib/utils.ts:155-161 | a well-signed token whose object payload has no `exp` is accepted at any time |
| Validation.PlainAppendDot | packages/worker/src/lib/validation.ts:11 | joining two white-space- and `@`-free runs with a dot stays free of both |
| Validation.EmailMeansPattern | packages/worker/src/lib/validation.ts:8-13 | `isValidEmail` holds exactly when the text matches the pattern and has at most 254 UTF-16 code units |
| Validation.EmailMatches | packages/worker/src/lib/validation.ts:11-12 | a valid address matches the `local@domain.tld` pattern |
| Validation.EmailMatchesAt | packages/worker/src/lib/validation.ts:11 | an `@` and a later inner dot with plain pieces around them make the pattern match |
| Validation.PlainSlice | packages/worker/src/lib/validation.ts:11 | a slice of a plain run is plain |
| Validation.EmailAccepted | packages/worker/src/lib/validation.ts:8-13 | `a@b.c` of plain pieces is valid exactly when it has at most 254 UTF-16 code units |
| Validation.EmailHasOneAt | packages/worker/src/lib/validation.ts:11 | a valid address has exactly one `@` and no white space |
| Validation.DomainFromLabels | packages/worker/src/lib/validation.ts:18-23 | labels joined with a top-level name give a valid domain exactly when it has at most 253 characters |
| Text.JoinNonEmpty | packages/worker/src/lib/validation.ts:21 | a join whose first piece is non-empty is non-empty |
| Validation.DomainPieces | packages/worker/src/lib/validation.ts:21 | a valid domain is the join of its own dot-separated pieces |
| Validation.SliceTo | packages/worker/src/lib/validation.ts:31 | `slice(0, n)` is a prefix, of length n when n is non-negative and smaller than the text |
| Validation.StripControls | packages/worker/src/lib/validation.ts:32 | removing control characters never lengthens the text |
| Validation.StripControlsKeeps | packages/worker/src/lib/validation.ts:32 | what is left holds no stripped character and keeps every other one; a text without them is unchanged |
| Validation.SanitizeProperties | packages/worker/src/lib/validation.ts:28-33 | the result fits `maxLength`, holds no stripped control character, keeps every other character of the slice, and sanitizing again changes nothing |
| Validation.WhitespaceControlsSurvive | packages/worker/src/lib/validation.ts:32 | tab, LF and CR are not stripped |
| Text.Utf16Length | packages/worker/src/lib/validation.ts:42-45 | `.length` counts one code unit per character of the Basic Multilingual Plane and two for any other, so it is the character count exactly when no character lies outside that plane |
| Validation.EmojiPassword | packages/worker/src/lib/validation.ts:42-45 | four emoji are eight code units, so they make a password long enough |
| Validation.IsValidPassword | packages/worker/src/lib/validation.ts:38-49 | valid exactly for 8 to 128 UTF-16 code units, as `.length` counts them; the errors are required, too short and too long, checked in that order |
| Validation.ApiKeyMeans | packages/worker/src/lib/validation.ts:53-57 | `isValidApiKey` holds exactly for 10 to 256 UTF-16 code units, as `.length` counts them, all in `[A-Za-z0-9_.-]` |
| Validation.ApiKeyEdges | packages/worker/src/lib/validation.ts:56 | both length bounds are inclusive: 10 key characters pass, 9 do not, and a space refuses the key |
| Validation.FileSizeRange | packages/worker/src/lib/validation.ts:72-74 | `isValidFileSize` never accepts an empty file, accepts the maximum itself exactly when it is at least 1, accepts nothing under a maximum below 1, and stays true when the maximum grows |
| Validation.UuidFromGroups | packages/worker/src/lib/validation.ts:65 | five hex runs of 8, 4, 4, 4 and 12 joined by hyphens are a valid UUID |
| Validation.UuidGroups | packages/worker/src/lib/validation.ts:65 | every valid UUID is such a joining of its own groups |
| Validation.UuidIgnoresCase | packages/worker/src/lib/validation.ts:65 | the UUID check ignores case |
| Validation.LowerIdempotent | packages/worker/src/lib/validation.ts:92 | lower-casing twice is lower-casing once |
| Validation.ContentTypeIgnoresCase | packages/worker/src/lib/validation.ts:92 | the content-type verdict ignores letter case |
| Validation.ParametersIgnored | packages/worker/src/lib/validation.ts:92 | parameters after the first `;` never change the verdict |
| Validation.ReplaceAllAbsent | packages/worker/src/lib/validation.ts:101-106 | replacing a character that does not occur changes nothing |
| Validation.ChainAppend | packages/worker/src/lib/validation.ts:101-106 | the replacement chain distributes over concatenation |
| Validation.ReplaceOne | packages/worker/src/lib/validation.ts:101-106 | one replacement on a single character |
| Validation.ChainOne | packages/worker/src/lib/validation.ts:101-106 | on one character the chain gives exactly that character's entity |
| Validation.EscapeIsPerCharacter | packages/worker/src/lib/validation.ts:99-107 | replacing `&` first means the chain escapes each character exactly once |
| Validation.ChainPerCharacter | packages/worker/src/lib/validation.ts:101-106 | the chain over a text is the per-character escape of it |
| Validation.EscapeEachSafe | packages/worker/src/lib/validation.ts:101-106 | the per-character escape contains no `<`, `>`, `"` or `'` |
| Validation.EscapeHtmlSafe | packages/worker/src/lib/validation.ts:99-107 | the output of `escapeHtml` contains no `<`, `>`, `"` or `'` |
| Validation.UnescapeEntity | packages/worker/src/lib/validation.ts:101-106 | reading back one entity gives its character |
| Validation.UnescapeEscape | packages/worker/src/lib/validation.ts:99-107 | escaping loses nothing: reading the entities back gives the input |
| RateLimit.Configure | packages/worker/src/lib/rate-limit.ts:27-31 | each falsy option falls back to its default (15 minutes, 5, `ratelimit`), a given one is kept, and no field ends up zero or empty |
| RateLimit.ConfigureDefaults | packages/worker/src/lib/rate-limit.ts:28-30 | no options, or only falsy ones, give 900000 ms, 5 requests and `ratelimit`; a full configuration is kept |
| RateLimit.KeysSeparate | packages/worker/src/lib/rate-limit.ts:38 | two keys are equal only for the same prefix and identifier, so limiters with different prefixes never share entries |
| RateLimit.ColonAfter | packages/worker/src/lib/rate-limit.ts:38 | in a key the first `:` is the one after a colon-free prefix |
| RateLimit.Pruned | packages/worker/src/lib/rate-limit.ts:44-47 | the `DELETE ... timestamp < ?` never adds rows |
| RateLimit.Cleared | packages/worker/src/lib/rate-limit.ts:97-100 | the `DELETE ... WHERE key = ?` never adds rows |
| RateLimit.PrunedMembers | packages/worker/src/lib/rate-limit.ts:44-47 | pruning keeps exactly the rows that are not stale entries of the key |
| RateLimit.ClearedMembers | packages/worker/src/lib/rate-limit.ts:97-100 | clearing keeps exactly the rows of other keys |
| RateLimit.OldestFrom | packages/worker/src/lib/rate-limit.ts:67-70 | `MIN(timestamp)` is none exactly when the window is empty, otherwise a stored timestamp in the window no later than any other |
| RateLimit.CountAppend | packages/worker/src/lib/rate-limit.ts:49-52 | the window count of two row lists added together is the sum of their counts |
| RateLimit.PrunedCount | packages/worker/src/lib/rate-limit.ts:44-52 | pruning entries older than the window start does not change the count inside it |
| RateLimit.ClearedCount | packages/worker/src/lib/rate-limit.ts:97-100 | a cleared key counts nothing |
| RateLimit.Step | packages/worker/src/lib/rate-limit.ts:44-47 | a statement succeeds unless the store throws, then applies its change; a throw changes nothing |
| RateLimit.LimitTable.constructor | packages/worker/src/lib/rate-limit.ts:23 | the table starts in the given state |
| RateLimit.LimitTable.Perform | packages/worker/src/lib/rate-limit.ts:44-47 | running a statement moves the table as one step |
| RateLimit.LimitTable.Count | packages/worker/src/lib/rate-limit.ts:49-52 | `COUNT(*)` returns the window count of the key |
| RateLimit.LimitTable.Oldest | packages/worker/src/lib/rate-limit.ts:67-70 | `MIN(timestamp)` returns the oldest window entry of the key |
| RateLimit.RateLimiter.constructor | packages/worker/src/lib/rate-limit.ts:25-32 | the limiter keeps its table and the configuration `Configure` computes |
| RateLimit.RateLimiter.CheckRequest | packages/worker/src/lib/rate-limit.ts:37-90 | `check` returns the result and leaves the table the check specification describes |
| RateLimit.RateLimiter.ResetKey | packages/worker/src/lib/rate-limit.ts:95-101 | `reset` leaves the table the reset specification describes |
| RateLimit.CheckDecides | packages/worker/src/lib/rate-limit.ts:54-80 | on a healthy store the request is admitted exactly when fewer than the maximum are in the window, recorded only then, with `remaining` the allowance left after it (0 when refused) |
| RateLimit.CheckPrunes | packages/worker/src/lib/rate-limit.ts:44-47 | after a check no entry of the key older than the window survives except the new one, and other keys' entries are untouched |
| RateLimit.CheckKeepsBound | packages/worker/src/lib/rate-limit.ts:56-63 | an admitted request adds one to the window count and keeps it at most the maximum; a refused one leaves it as it was |
| RateLimit.AdmitCounts | packages/worker/src/lib/rate-limit.ts:58-64 | recording an admitted request inside the window adds exactly one to its count |
| RateLimit.FullWindowRefused | packages/worker/src/lib/rate-limit.ts:56-78 | a full window refuses with 0 remaining and records nothing |
| RateLimit.AdmittedResetTime | packages/worker/src/lib/rate-limit.ts:72-74 | an admitted request resets no earlier than now and no later than one window from now |
| RateLimit.RefusedResetTime | packages/worker/src/lib/rate-limit.ts:72-74 | a refused request with no future entries also resets within one window |
| RateLimit.CheckFailsOpen | packages/worker/src/lib/rate-limit.ts:81-89 | a throwing statement admits the request with the whole allowance and a reset one window away; a failed prune leaves the table as it was |
| RateLimit.ResetClears | packages/worker/src/lib/rate-limit.ts:95-101 | `reset` removes every entry of the key and nothing else, and a throw changes nothing |
| RateLimit.CheckAfterReset | packages/worker/src/lib/rate-limit.ts:95-101 | after a reset the next healthy check is admitted with the allowance less one and a reset one window away |
| RateLimit.OldestAfterClear | packages/worker/src/lib/rate-limit.ts:67-74 | in an empty window the recorded request becomes the oldest entry |
| RateLimit.InWindowCounts | packages/worker/src/lib/rate-limit.ts:49-52 | an entry inside the window is counted |
| RateLimit.ClientIP | packages/worker/src/lib/rate-limit.ts:107-114 | `cf-connecting-ip`, then `x-real-ip`, then the first forwarded hop, each only when non-empty, else `unknown`; never empty |
| RateLimit.ForwardedFirstHop | packages/worker/src/lib/rate-limit.ts:111 | the forwarded list yields the trimmed text before its first comma |
| Routes.CorsOrigin | packages/worker/src/api/routes.ts:27-38 | the `origin` callback answers `*` without an origin, echoes an allowed origin, and otherwise allows none |
| Routes.AllowedOrigins | packages/worker/src/api/routes.ts:32-36 | any https `workers.dev` subdomain and any local host with a numeric port is echoed back |
| Routes.RefusedOrigins | packages/worker/src/api/routes.ts:32-37 | an origin outside the three patterns, a plain-http `workers.dev` origin and a local host without a numeric port are refused |
| Routes.PlainHttpRefused | packages/worker/src/api/routes.ts:34-35 | a plain-http origin is echoed only for the two local hosts |
| Routes.PrefixShift | packages/worker/src/api/routes.ts:33-35 | a shared prefix does not change a prefix test |
| Routes.LimiterConfigs | packages/worker/src/api/routes.ts:46-78 | login allows 5 requests per 15 minutes and setup 3 per hour, under keys that never coincide |
| Routes.CeilSeconds | packages/worker/src/api/routes.ts:59 | `Math.ceil(ms / 1000)` is the least whole number of seconds covering the milliseconds |
| Routes.BlockedAttempt | packages/worker/src/api/routes.ts:55-62 | a refused login or setup is answered 429 with its own message and a `retryAfter` between 0 and the window in seconds |
| Routes.AdmittedLogin | packages/worker/src/api/routes.ts:66-67 | an admitted login carries the remaining allowance and the reset instant in seconds as headers |
| Routes.OtherPathsUnlimited | packages/worker/src/api/routes.ts:45 | only the login and setup paths touch the limiter table |
| Routes.Segments | packages/worker/src/api/routes.ts:15 | a path below `/api/` splits into at least one segment |
| Routes.FirstMatch | packages/worker/src/api/routes.ts:121-123 | the route that answers is the first registered one that matches |
| Routes.GroupAt | packages/worker/src/api/routes.ts:121-123 | the group mounted at a base segment, or none when no group is |
| Routes.RouteOf | packages/worker/src/api/routes.ts:97-123 | a matched route belongs to the group named by the path's first segment |
| Routes.TwoSegments | packages/worker/src/api/routes.ts:121 | `/api/a/b` splits into `a` and `b` |
| Routes.StatsBeforeDetail | packages/worker/src/api/emails.ts:48-63 | `GET /api/emails/stats` reaches the statistics route, registered before `/:id` |
| Routes.StatusRoute | packages/worker/src/api/routes.ts:123 | `GET /api/setup/status` reaches the setup status route |
| Routes.ServeRequest | packages/worker/src/api/routes.ts:18-128 | the pipeline's outcome and limiter table are those of the request-serving specification |
| Routes.HandledIff | packages/worker/src/api/routes.ts:45-128 | a request reaches a handler exactly when it is not a preflight, its limiter admits it, its session check passes and a route matches, and then the first matching route; otherwise 404 |
| Routes.SessionBeforeRoute | packages/worker/src/api/routes.ts:105-119 | a protected path without a live session gets the middleware's 401 before any route is looked up |
| Routes.PublicPaths | packages/worker/src/api/routes.ts:113-117 | the login and setup paths and the setup status check need no session |
| Routes.StatusIsPublic | packages/worker/src/api/routes.ts:115-116 | `GET /api/setup/status` reaches its route whatever the session |
| Routes.SplitHead | packages/worker/src/api/routes.ts:105 | the first segment of a split holds no separator and is followed by one unless it is everything |
| Routes.ProtectedRoutesNeedSession | packages/worker/src/api/routes.ts:105-123 | every emails, settings and setup route other than the status check is reached only with a live session |
| Routes.GroupRouteNeedsSession | packages/worker/src/api/routes.ts:105-119 | a path routed to a protected group lies under that group's protected base path |
| Routes.HeadNeedsSession | packages/worker/src/api/routes.ts:105-119 | a path whose first segment names a protected group needs a session, the status check excepted |
| Routes.UnderGroup | packages/worker/src/api/routes.ts:105-113 | a path whose first segment is `h` is `/api/h` or below `/api/h/` |
| Routes.PreflightAnswered | packages/worker/src/api/routes.ts:26-42 | a preflight is answered by CORS alone: no limiter and no session lookup |
| BrevoClient.Headers | packages/brevo-api/src/client.ts:18-22 | three headers, the first carrying the configured API key |
| BrevoClient.BuildRequest | packages/brevo-api/src/client.ts:16-31 | the URL is the base URL followed by the endpoint; the method and headers are set; a body is sent exactly for a truthy body on POST, PUT or PATCH, as its JSON |
| BrevoClient.Data | packages/brevo-api/src/client.ts:36-45 | an empty answer is null without parsing; an answer that does not parse is null; otherwise the parsed value |
| BrevoClient.Outcome | packages/brevo-api/src/client.ts:47-52 | ok exactly when the response is; then the parsed data; else an error `Brevo API error: ` followed by the message or status text |
| BrevoClient.Call | packages/brevo-api/src/client.ts:11-53 | `request` sends the built request and returns its outcome |
| BrevoClient.KeyOnEveryRequest | packages/brevo-api/src/client.ts:16-19 | every request carries the key and goes to the base URL |
| BrevoClient.NoBodyCases | packages/brevo-api/src/client.ts:29-31 | GET and DELETE never send a body, and a falsy body is never sent |
| BrevoClient.EmptyTextNotParsed | packages/brevo-api/src/client.ts:39 | an empty answer never reaches the parser; an ok one yields null |
| BrevoClient.UnparseableOkIsNull | packages/brevo-api/src/client.ts:40-44 | an ok answer that is not JSON is null data, not an error |
| BrevoClient.ErrorText | packages/brevo-api/src/client.ts:47-50 | a failed answer throws the provider's non-empty message, otherwise the status text |
| BrevoClient.VerbsDelegate | packages/brevo-api/src/client.ts:55-69 | `get`, `post`, `put` and `delete` are `request` with their method; `get` and `delete` send no body |
| BrevoMessages.AddressList | packages/brevo-api/src/messages.ts:17 | a recipient list becomes a JSON array of the same length, entry by entry |
| BrevoMessages.AttachmentList | packages/brevo-api/src/messages.ts:42-46 | one name/content/contentType object per attachment, in order |
| BrevoMessages.PayloadOf | packages/brevo-api/src/messages.ts:15-55 | sender, to and subject always; cc, bcc and attachment when non-empty; text, html and reply-to when truthy; headers when present; tags when non-empty |
| BrevoMessages.BuildPayload | packages/brevo-api/src/messages.ts:15-55 | the statement-by-statement construction builds that payload |
| BrevoMessages.MapAttachments | packages/brevo-api/src/messages.ts:42-46 | the `map` over the attachments builds that list |
| BrevoMessages.SendResult | packages/brevo-api/src/messages.ts:57-62 | the client's error is passed on; an ok answer yields success with its message id unless it is null, which throws |
| BrevoMessages.NormalizeRecipients | packages/brevo-api/src/messages.ts:110-115 | one recipient becomes a one-element list; a list is normalised entry by entry |
| BrevoMessages.PayloadStartsFixed | packages/brevo-api/src/messages.ts:15-19 | the three fixed fields come first, in order |
| BrevoMessages.PayloadSize | packages/brevo-api/src/messages.ts:15-55 | the posted object has 3 to 11 fields, exactly 3 when nothing optional is given |
| BrevoMessages.SendPostsPayload | packages/brevo-api/src/messages.ts:57 | `send` posts the payload to `/smtp/email` |
| BrevoMessages.SendOutcome | packages/brevo-api/src/messages.ts:57-62 | a failed post throws the client's error; an ok answer gives success with the message id |
| BrevoMessages.NormalizeWraps | packages/brevo-api/src/messages.ts:74-114 | a string sender or recipient becomes an address with no name; an address object passes unchanged |
| BrevoMessages.TextAndHtmlPayloads | packages/brevo-api/src/messages.ts:68-105 | `sendText` posts its text and nothing else optional; `sendHtml` its html and, when given, a text part |
| CloudflareService.Respond | packages/cloudflare-email-api/src/client.ts:34-35 | the fake provider logs every request; it succeeds exactly when its URL is not failing, and a failure carries the endpoint's error list and changes no zone, rule or address |
| CloudflareClient.BuildRequest | packages/cloudflare-email-api/src/client.ts:18-32 | the URL is the base URL followed by the endpoint; the bearer headers are set; a body is sent exactly for a truthy body on POST, PUT or PATCH |
| CloudflareClient.Messages | packages/cloudflare-email-api/src/client.ts:38 | the messages of the error list, one per error, in order |
| CloudflareClient.Check | packages/cloudflare-email-api/src/client.ts:37-42 | ok exactly when `success` is true, then the whole envelope; else `Cloudflare API error: ` followed by the messages joined by `, ` |
| CloudflareClient.Call | packages/cloudflare-email-api/src/client.ts:13-43 | `request` logs the built request and then checks the provider's envelope |
| CloudflareClient.CheckIgnoresStatus | packages/cloudflare-email-api/src/client.ts:37 | `success = false` throws whatever the HTTP status, and `success = true` passes the envelope through |
| CloudflareClient.EmptyErrorList | packages/cloudflare-email-api/src/client.ts:38-39 | a failure with an empty error list throws the bare prefix |
| CloudflareClient.MessagesReadBack | packages/cloudflare-email-api/src/client.ts:38-39 | without commas in the messages, the thrown text splits back into one piece per error |
| CloudflareClient.JoinCommaCount | packages/cloudflare-email-api/src/client.ts:38 | joining n comma-free messages with `, ` puts n - 1 commas in the text |
| CloudflareClient.VerbsDelegate | packages/cloudflare-email-api/src/client.ts:45-67 | the five verbs are `request` with their method, the body-less ones send no body, and `getAccountId` is the configured account |
| CloudflareDomains.Named | packages/cloudflare-email-api/src/domains.ts:19 | the zones answering `?name=`, in provider order, the first of them being the first zone of that name |
| CloudflareDomains.GetZoneByName | packages/cloudflare-email-api/src/domains.ts:18-21 | one GET of `/zones?name=<domain>`; the answer is the first zone of that name, or null |
| CloudflareDomains.AddZoneBodyFields | packages/cloudflare-email-api/src/domains.ts:35-40 | the body names the domain, type `full`, the jump-start flag and the client's account |
| CloudflareDomains.AddZone | packages/cloudflare-email-api/src/domains.ts:34-42 | one POST `/zones` whose body names the domain, `jump_start` defaulting to true; the new zone is added under that name |
| CloudflareDomains.IsDomainOnboarded | packages/cloudflare-email-api/src/domains.ts:47-50 | true exactly when the zone lookup finds a zone whose status is `active` |
| CloudflareDomains.OfKind | packages/cloudflare-email-api/src/domains.ts:57-59 | exactly the records of the given type |
| CloudflareDomains.GetDnsRecords | packages/cloudflare-email-api/src/domains.ts:55-62 | one GET; all the zone's records without a type, only that type's records with one |
| CloudflareDomains.CreateDnsRecord | packages/cloudflare-email-api/src/domains.ts:67-86 | one POST of the record; the created record has the ttl sent |
| CloudflareDomains.EnsureZone | packages/cloudflare-email-api/src/domains.ts:99-105 | a successful `ensureZone` yields a zone of that name which the provider holds |
| CloudflareDomains.TtlDefault | packages/cloudflare-email-api/src/domains.ts:82 | the ttl sent is 3600 exactly when the caller gave none or 0, and the given one otherwise |
| CloudflareDomains.DnsEndpointQuery | packages/cloudflare-email-api/src/domains.ts:56-59 | `?type=` is appended exactly when a type is given |
| CloudflareDomains.EnsureExisting | packages/cloudflare-email-api/src/domains.ts:100-102 | an existing zone is returned after one query, without a `POST /zones`, and the zones are untouched |
| CloudflareDomains.EnsureZoneIdempotent | packages/cloudflare-email-api/src/domains.ts:99-105 | a second `ensureZone` of the same domain returns the same zone, only queries, and one zone of that name remains when there was none before |
| CloudflareDomains.NamedAppend | packages/cloudflare-email-api/src/domains.ts:19 | the name query distributes over joined zone lists |
| CloudflareDomains.NamedFirst | packages/cloudflare-email-api/src/domains.ts:20 | the first zone of a name leads the query's answer |
| CloudflareDomains.OnboardedIff | packages/cloudflare-email-api/src/domains.ts:47-50 | `isDomainOnboarded` holds exactly when the first zone of the domain is active |
| CloudflareRouting.Enable | packages/cloudflare-email-api/src/routing.ts:25-30 | one body-less POST to `/enable`; afterwards the provider reports routing enabled for the zone, and nothing else changes |
| CloudflareRouting.GetRoutingDns | packages/cloudflare-email-api/src/routing.ts:45-50 | one GET of the zone's routing DNS records, answered with them |
| CloudflareRouting.UpdateCatchAllRule | packages/cloudflare-email-api/src/routing.ts:120-135 | always one PUT on the zone's `catch_all` with matchers `[{type: 'all'}]`; no other rule is created or changed |
| CloudflareRouting.FullSetup | packages/cloudflare-email-api/src/routing.ts:246-270 | the first request of `fullSetup` is the `enable` POST |
| CloudflareRouting.CreateRule | packages/cloudflare-email-api/src/routing.ts:77-83 | one POST that adds exactly the new rule to the zone |
| CloudflareRouting.ListDestinations | packages/cloudflare-email-api/src/routing.ts:142-148 | one GET of the account's addresses, answered with them |
| CloudflareRouting.CreateDestination | packages/cloudflare-email-api/src/routing.ts:153-160 | one POST adding a new, unverified address of the account |
| CloudflareRouting.WithoutDestination | packages/cloudflare-email-api/src/routing.ts:165-170 | the addresses other than the deleted one |
| CloudflareRouting.DeleteDestination | packages/cloudflare-email-api/src/routing.ts:165-170 | one DELETE; afterwards the address is gone from the account |
| CloudflareRouting.GetDestination | packages/cloudflare-email-api/src/routing.ts:175-181 | one GET answered with the address of that id |
| CloudflareRouting.CatchAllIdempotent | packages/cloudflare-email-api/src/routing.ts:231-241 | pointing the catch-all at the worker twice is the same as once |
| CloudflareRouting.FullSetupDecision | packages/cloudflare-email-api/src/routing.ts:256-267 | `enable` runs first; a worker name wins over a destination; with neither it throws after routing was enabled |
| CloudflareRouting.ForwardingRuleShape | packages/cloudflare-email-api/src/routing.ts:188-211 | one literal `to` matcher, one forward to the address, enabled, and the name defaulting to `Forward <from>` |
| CloudflareRouting.Scopes | packages/cloudflare-email-api/src/routing.ts:142-181 | destination calls are under the client's account; rule and routing calls under the zone |
| CloudflareEmailApi.SetupDomain | packages/cloudflare-email-api/src/index.ts:32-50 | `setupDomain` returns the zone `ensureZone` gave and the settings and rule `fullSetup` made on its id; a failed `ensureZone` stops there |
| CloudflareService.FindDestination | packages/cloudflare-email-api/src/index.ts:57 | `find` on addresses by email, or by id as the provider's `GET` of one address answers: the first address whose field has the value, or none exactly when there is none |
| CloudflareEmailApi.EnsureDestinationAddress | packages/cloudflare-email-api/src/index.ts:55-67 | the address returned has the requested email |
| CloudflareEmailApi.GetZoneId | packages/cloudflare-email-api/src/index.ts:72-75 | `getZoneId` makes exactly the zone lookup's request |
| CloudflareEmailApi.EnsureExistingDestination | packages/cloudflare-email-api/src/index.ts:56-64 | a listed address is returned as is, even unverified, and nothing is created |
| CloudflareEmailApi.EnsureNewDestination | packages/cloudflare-email-api/src/index.ts:66 | an address not listed is created with exactly one `createDestination(email)` after the listing |
| CloudflareEmailApi.ZoneIdIff | packages/cloudflare-email-api/src/index.ts:72-75 | the zone's id is returned exactly when the lookup finds a zone with a non-empty id, else null |
| CloudflareEmailApi.SharedClient | packages/cloudflare-email-api/src/index.ts:20-24 | the zone and routing parts use the same credentials and account |
| ApiClient.AuthorizationIff | frontend/src/api/client.ts:40-46 | `Authorization: Bearer <token>` is sent exactly when a token is set, always with `Content-Type: application/json` |
| ApiClient.ServerSeesToken | frontend/src/api/client.ts:44-46 | the worker reads back from the header exactly the token the client holds, or none |
| ApiClient.ErrorMessage | frontend/src/api/client.ts:57 | `data.error || 'Request failed'` is never empty |
| ApiClient.Outcome | frontend/src/api/client.ts:54-60 | ok exactly when the response is ok and its body parses, then the parsed body; a failed answer with a `null` body throws the TypeError of reading `error` of null |
| ApiClient.WorkerErrorsSurface | frontend/src/api/client.ts:56-58 | the worker's `{ error: m }` throws `m`; a `null` body throws the TypeError of reading `error`; any other answer without a usable error string throws `Request failed` |
| ApiClient.ReloadKeepsToken | frontend/src/api/client.ts:18-29 | a client rebuilt from the storage `setToken` leaves sends the same headers and holds a truthy token; no other key is touched |
| ApiClient.LoginCarriesToken | frontend/src/api/client.ts:68-74 | a login or setup answer with a token makes every later request carry it, stored under `avamail_token`; any other answer changes nothing |
| ApiClient.LogoutClears | frontend/src/api/client.ts:76-79 | after a successful logout no token is held, stored or sent; a failed one changes nothing |
| ApiClient.Pieces | frontend/src/api/client.ts:111 | one `key=value` piece per appended pair, in order |
| ApiClient.PairsOf | frontend/src/api/client.ts:111 | one pair read back per piece |
| ApiClient.BuildQuery | frontend/src/api/client.ts:104-109 | the chain of conditional appends builds the query parameters of the options |
| ApiClient.BareEndpointIff | frontend/src/api/client.ts:111-112 | the list endpoint is bare `/emails` exactly when no option is truthy |
| ApiClient.NatPlain | frontend/src/api/client.ts:106 | a natural number's text needs no escaping in a query |
| ApiClient.IntPlain | frontend/src/api/client.ts:106-107 | an integer's text needs no escaping in a query |
| ApiClient.PlainHasNoSeparators | frontend/src/api/client.ts:111 | a plain text holds neither `=` nor `&` |
| ApiClient.PairRoundTrip | frontend/src/api/client.ts:111 | a piece of plain key and value reads back as that pair |
| ApiClient.PairsRoundTrip | frontend/src/api/client.ts:111 | pieces of plain pairs read back as the pairs |
| ApiClient.NoAmpersand | frontend/src/api/client.ts:111 | a piece of plain key and value holds no `&` |
| ApiClient.QueryRoundTrip | frontend/src/api/client.ts:104-111 | the worker parses the query string back into exactly the pairs appended |
| ApiClient.LookupAppend | frontend/src/api/client.ts:104-109 | a lookup in two joined lists finds the first list's entry when there is one |
| ApiClient.LookupParams | frontend/src/api/client.ts:105-109 | each name the builder uses is found with the value of its own option, and no other |
| ApiClient.QueryParamsPlain | frontend/src/api/client.ts:105-109 | the builder's names and values are plain and non-empty names |
| ApiClient.WorkerReadsOptions | frontend/src/api/client.ts:97-113 | each truthy option reaches the worker's list route under its own name and value, every other is absent, and a positive limit parses back to itself |
| ApiClient.AttachmentUrlRoutes | frontend/src/api/client.ts:141-143 | for ids that are non-empty path segments the attachment URL reaches the worker's download route |
| ApiClient.AttachmentUrlSegments | frontend/src/api/client.ts:142 | the attachment URL splits into `emails`, the email id, `attachments` and the attachment id |
| ApiClient.Client.constructor | frontend/src/api/client.ts:18-20 | a new client holds the token found in storage |
| ApiClient.Client.SetToken | frontend/src/api/client.ts:22-29 | `setToken` holds the token and stores it when truthy, removing it otherwise |
| ApiClient.Client.GetToken | frontend/src/api/client.ts:31-33 | `getToken` returns the held token |
| ApiClient.Client.Send | frontend/src/api/client.ts:35-61 | `request` sends the request built from the held token and returns its outcome |
| ApiClient.Client.Authenticate | frontend/src/api/client.ts:68-87 | `login`/`setup` post the password and keep a token handed out |
| ApiClient.Client.Logout | frontend/src/api/client.ts:76-79 | `logout` posts and, only when that succeeds, drops the token |
| ApiClient.Client.GetEmails | frontend/src/api/client.ts:97-113 | `getEmails` requests the list endpoint its options build |
| EmailsStore.Keep | frontend/src/stores/emails.ts:18-20 | a filter never lengthens the list |
| EmailsStore.KeepMembers | frontend/src/stores/emails.ts:18-20 | a filter holds exactly the listed emails that pass its test |
| EmailsStore.KeepAppend | frontend/src/stores/emails.ts:18-20 | filters preserve order: filtering two joined parts filters each part |
| EmailsStore.InboxSentSplit | frontend/src/stores/emails.ts:18-19 | every email is received or sent, so the inbox and the sent view split the list between them |
| EmailsStore.ViewMembers | frontend/src/stores/emails.ts:18-20 | the three views hold the listed emails of type received, of type sent, and starred with flag 1 |
| EmailsStore.FirstFrom | frontend/src/stores/emails.ts:45 | a position found from `k` on lies in the list |
| EmailsStore.FirstIndex | frontend/src/stores/emails.ts:45 | a position found lies in the list |
| EmailsStore.FirstFromFinds | frontend/src/stores/emails.ts:45 | the first position from `k` on holding the id, or none when none does |
| EmailsStore.FirstIndexFinds | frontend/src/stores/emails.ts:45 | `findIndex` gives the first email with the id, and -1 only when no email has it |
| EmailsStore.Without | frontend/src/stores/emails.ts:103 | deleting never lengthens the list |
| EmailsStore.FlipTwice | frontend/src/stores/emails.ts:94 | `x === 1 ? 0 : 1` is always 0 or 1, and twice gives `x` back exactly when it was 0 or 1 |
| EmailsStore.ChangeKeepsIds | frontend/src/stores/emails.ts:77-78 | changing a flag keeps every id, so the same email is found first again |
| EmailsStore.SameIdsSameFirst | frontend/src/stores/emails.ts:77 | lists with the same ids find the same first position |
| EmailsStore.ChangeFirstOnly | frontend/src/stores/emails.ts:77-78 | only the first listed email with the id changes, and only the flag changed; with none the list stays |
| EmailsStore.WithoutMembers | frontend/src/stores/emails.ts:103 | deleting keeps exactly the emails with other ids |
| EmailsStore.WithoutAppend | frontend/src/stores/emails.ts:103 | deleting keeps the others in order |
| EmailsStore.FetchEmailsReplaces | frontend/src/stores/emails.ts:22-30 | a fetched list replaces the old one, a failed fetch keeps it, and loading is over either way |
| EmailsStore.FetchAsksForHundred | frontend/src/stores/emails.ts:25 | the worker reads `fetchEmails`' request as its type, if any, and a limit of 100: the query carries the text `100`, which the list route reads as 100 |
| EmailsStore.FetchLimitText | frontend/src/stores/emails.ts:25 | the limit 100 is written as the text `100` |
| EmailsStore.FetchEmailMarksRead | frontend/src/stores/emails.ts:40-53 | opening an email shows it and marks its first listed copy read, and nothing else in the list |
| EmailsStore.FetchEmailFails | frontend/src/stores/emails.ts:40-53 | a failed open leaves list, reader and counters as they were, with loading over |
| EmailsStore.MarkSetsBoth | frontend/src/stores/emails.ts:75-89 | after `markAsRead`/`markAsUnread` the first listed email with the id and the open one with that id carry the flag; nothing else changes |
| EmailsStore.FlagCallFails | frontend/src/stores/emails.ts:76 | a failed call changes nothing |
| EmailsStore.ToggleTwiceRestores | frontend/src/stores/emails.ts:91-99 | toggling the star twice restores the list and the open email exactly when the flags touched were 0 or 1 |
| EmailsStore.DeleteRemoves | frontend/src/stores/emails.ts:101-106 | after a delete no listed email has the id, the others keep their order, and the reader is cleared exactly when it showed that email |
| EmailsStore.SendRefreshes | frontend/src/stores/emails.ts:69-72 | a successful send lists the sent emails, shows the new counters and returns the worker's answer |
| EmailsStore.SendFailures | frontend/src/stores/emails.ts:69-71 | a failed send changes nothing and is rethrown; a failed refetch is rethrown after loading ends |
| EmailsStore.Store.constructor | frontend/src/stores/emails.ts:7-16 | empty list, no open email, zero counters, not loading, inbox view |
| EmailsStore.Store.FindIndex | frontend/src/stores/emails.ts:45 | the search loop returns the first position holding the id |
| EmailsStore.Store.FetchStats | frontend/src/stores/emails.ts:32-38 | `fetchStats` shows the answer and swallows a failure |
| EmailsStore.Store.FetchEmails | frontend/src/stores/emails.ts:22-30 | `fetchEmails` asks for its type and 100 emails and moves the state as its specification |
| EmailsStore.Store.ChangeListed | frontend/src/stores/emails.ts:45-48 | the first listed email with the id is changed in place |
| EmailsStore.Store.FetchEmail | frontend/src/stores/emails.ts:40-53 | `fetchEmail` moves the state as its specification and rethrows a failure |
| EmailsStore.Store.Flag | frontend/src/stores/emails.ts:75-99 | the shared body of the flag actions moves the state as its specification |
| EmailsStore.Store.MarkAsRead | frontend/src/stores/emails.ts:75-81 | `markAsRead` sets the read flag to 1 |
| EmailsStore.Store.MarkAsUnread | frontend/src/stores/emails.ts:83-89 | `markAsUnread` sets the read flag to 0 |
| EmailsStore.Store.ToggleStar | frontend/src/stores/emails.ts:91-99 | `toggleStar` flips the star flag |
| EmailsStore.Store.DeleteEmail | frontend/src/stores/emails.ts:101-106 | `deleteEmail` moves the state as its specification |
| EmailsStore.Store.SendEmail | frontend/src/stores/emails.ts:55-73 | `sendEmail` returns the worker's answer or rethrows, and moves the state as its specification |
| EmailsStore.Store.SetView | frontend/src/stores/emails.ts:108-110 | only the view changes |
| EmailsStore.Store.ClearCurrentEmail | frontend/src/stores/emails.ts:112-114 | only the open email is cleared |
| AuthStore.InitialNotReady | frontend/src/stores/auth.ts:6-10 | a new store is not ready, not signed in and not needing setup |
| AuthStore.CheckAuthOutcome | frontend/src/stores/auth.ts:12-24 | after `checkAuth` the store is ready, the flags copy the answer, and a throw clears both |
| AuthStore.CheckReadsServerStatus | frontend/src/stores/auth.ts:15-17 | the worker's `/auth/status` reply gives back exactly its two flags |
| AuthStore.CheckedFlagsExclusive | frontend/src/stores/auth.ts:16-17 | after a check the store never says both signed in and needing setup |
| AuthStore.AnswerOutcome | frontend/src/stores/auth.ts:26-42 | a successful answer signs in and clears the need for setup; anything else changes no flag |
| AuthStore.SessionReplySignsIn | frontend/src/stores/auth.ts:27-31 | the worker's login or setup reply signs the store in and leaves its token with the client |
| AuthStore.LogoutAlwaysClears | frontend/src/stores/auth.ts:44-51 | logging out drops the token from the client and from storage whether or not the call succeeds |
| AuthStore.Store.constructor | frontend/src/stores/auth.ts:6-8 | the store starts with the initial flags |
| AuthStore.Store.CheckAuth | frontend/src/stores/auth.ts:12-24 | `checkAuth` sends `GET /auth/status` and sets the flags from its outcome |
| AuthStore.Store.Authenticate | frontend/src/stores/auth.ts:26-42 | post the password, let the client keep the token, and set the flags from the answer |
| AuthStore.Store.Login | frontend/src/stores/auth.ts:26-33 | `login` posts to `/auth/login` |
| AuthStore.Store.Setup | frontend/src/stores/auth.ts:35-42 | `setup` posts to `/auth/setup` |
| AuthStore.Store.Logout | frontend/src/stores/auth.ts:44-51 | `logout` always ends signed out with no token, and rethrows a failed call |
| Router.ChildTargets | frontend/src/router/index.ts:19-60 | one page per child, with the joined path, its name and the merged meta |
| Router.BeforeEach | frontend/src/router/index.ts:64-95 | the guard checks the status only while loading, then decides from the store's flags |
| Router.PagesOfTable | frontend/src/router/index.ts:4-62 | nine pages: login the only guest page, setup and every page under the layout requiring sign-in, the dashboard at `/` |
| Router.RedirectTargets | frontend/src/router/index.ts:74-90 | the names the guard redirects to resolve to the login page and the dashboard |
| Router.SetupComesFirst | frontend/src/router/index.ts:73-76 | while setup is needed every navigation but the one to login goes to login |
| Router.GuestPages | frontend/src/router/index.ts:79-86 | a guest page sends signed-in users to the dashboard and lets everyone else in |
| Router.ProtectedPages | frontend/src/router/index.ts:89-94 | a non-guest page that requires sign-in sends others to login, and everything else proceeds |
| Router.ProceedIff | frontend/src/router/index.ts:64-95 | a navigation proceeds exactly when no rule objects, and a redirect goes to login or the dashboard |
| Router.ConsistentFlags | frontend/src/stores/auth.ts:12-51 | the store's flags never claim both signed in and needing setup: initially, after a check, login, setup or logout |
| Router.RedirectsSettle | frontend/src/router/index.ts:73-94 | with consistent flags every redirect lands on a page the guard lets in, so redirects never chain |
| Router.InconsistentFlagsLoop | frontend/src/router/index.ts:73-82 | flags claiming both would bounce between dashboard and login for ever |
| Router.UnmatchedPaths | frontend/src/router/index.ts:73-94 | a path no route matches proceeds unless setup is needed |

## Left out

What the core does that the model does not capture, one item per line:

- I/O is not modelled. The network, `fetch`, `console`, `localStorage` persistence across page loads and the `postal-mime` parser become parameters or fields handed to the methods.
- Cryptography and clocks are opaque parameters: PBKDF2, SHA-256, HMAC, random bytes, `crypto.randomUUID`, `Date.now`, `datetime('now')` and `toISOString`. Instants are integers, except in `Expiry`, which models the text comparison itself.
- Concurrency is not modelled. Every `await` runs to completion before the next statement, so two requests or two store actions never interleave.
- The `created_at` columns and `listAddresses` are left out. Both are ordered or filled by the database clock.
- `deleteEmail` removes only the `emails` row. Whether attachments cascade depends on a schema that is not part of this model.
- Setup routes `GET /brevo/senders`, `GET /addresses` and `DELETE /addresses/:id` are thin delegations. They are matched by the route table but have no handler specification, and neither has the health check with its timestamp.
- Utils: `createToken`, `formatDate` and `sanitizeHtml` are not modelled. The first two hinge on the clock and encoders. `sanitizeHtml` rests on regex lookahead and promises nothing.
- The Cloudflare calls outside the provisioning flow are not modelled: `listZones`, `getZone`, `deleteDNSRecord`, `getSettings`, `disable`, `listRules`, `getRule`, `updateRule`, `deleteRule` and `getCatchAllRule`. Each is a single request like those that are modelled.
- The Brevo library's `index.ts` and `senders.ts` are one-line delegations. `getAccount` is a network probe whose answer is a parameter of `SetupApi.BrevoSetup`.
- The remaining methods of the dashboard's API client are each one `request` call, covered by `ApiClient.Client.Send`. These are `getEmail`, `getEmailStats`, `sendEmail`, the flag calls, `deleteEmail`, settings, setup, addresses and `changePassword`.
- The emails store receives API answers already decoded into `Email` and `Stats` values. JSON decoding of those answers is not modelled, and the `data` given to `sendEmail` is passed through untouched.
- JSON key order of the Brevo payload and of replies is kept as built. `JSON.stringify` escaping is not modelled.
- AuthApi.HandleSetup, AuthApi.HandleLogin, AuthApi.HandleChangePassword, SettingsApi.HandlePutAll, SettingsApi.HandlePutOne, SetupApi.HandleCloudflare, SetupApi.HandleBrevo, SetupApi.HandleAddAddress, EmailsApi.HandleSend: request bodies arrive already decoded. A body that is not JSON, or is the JSON `null` that destructuring rejects, makes `c.req.json()` throw inside the route's `try`, and the route answers with its catch-all 500; that path is not modelled. `SetupApi.HandleWorkerRouting` is the exception: its `catch` at setup.ts:150 turns a body that is not JSON into `{}`, so the decoded body is `None` there and the worker name falls back to `avamail`, while a `null` body is modelled as the 500 that reading `workerName` of null produces.
- Messages, passwords and tokens are strings. A non-string JSON value given where the code expects a string is not modelled.
- CORS preflight answers and the `secureHeaders` middleware headers come from the Hono library. The model records only the allowed origin and that a preflight stops the pipeline.
- Routes.RouteOf: Hono's pattern matching is modelled by segment matching below `/api/`. Trailing slashes and empty segments follow that model, not Hono's router.
- ApiClient.QueryRoundTrip: holds for keys and values that need no percent-encoding. `URLSearchParams` escaping is not modelled.
- EmailsApi.ParseInt: models `parseInt` on text only; it does not model numbers above 2^53 or fractional input.
- Validation.FileSizeRange: sizes are integers; fractional sizes and the `typeof size === 'number'` test are not modelled.
- Router.BeforeEach: Vue's path matching is replaced by a `Target` value, the page the navigation resolved to.
- AuthStore.Store.CheckAuth: takes the truthiness of the two members. The code copies the raw values, which are booleans whenever the worker answers.
- Failures of reads (`SELECT`s) are not modelled: reads never throw. Only writes can throw, through `failAfter`.
- Validation.SliceTo, Validation.SanitizeProperties: `slice(0, n)` counts UTF-16 code units and can split a surrogate pair. A Dafny character cannot hold half a pair, so the model takes the first n characters; for text outside the Basic Multilingual Plane the result may be longer than the code's. The length checks of passwords and email addresses do count UTF-16 code units (`Text.Utf16Length`).
- SettingsApi.FirstInvalid, SettingsApi.Names, SettingsApi.ValidateKeys, SettingsApi.WriteUnmasked: `Object.keys` lists integer-like keys such as `"5"` first, in ascending order, and the model walks the parsed object in insertion order. With several keys outside the allowed list, the key named in the 400 can therefore differ from the code's. Repeated keys are handled as `JSON.parse` does (`SettingsApi.Collapse`). Whether a body is refused does not depend on this order, and neither does any write, because no allowed key is integer-like.
- SetupApi.HandleCloudflare: the 500 reply's `debug` field holds the JavaScript stack trace of the error. The model has no stack, so its reply carries only `error` and `details`.
- Database.LiveSession, Database.Unexpired, AuthApi.LoginWritesEffect: the routes use the corrected instant order; Expiry models the text comparison as written. Sessions carry integer instants, so accepting and purging follow time order and not the text order of `expires_at > datetime('now')`. The difference is shown by Expiry.ExpiredSessionStillLive. `Database.Queries.GetSessionByToken` and `Database.Queries.CleanExpired` inherit the same order.

Where the code and the documented behaviour of the system differ, the model follows the code:

- A Cloudflare envelope with `success: false` and an empty error list throws the bare `Cloudflare API error: ` (`CloudflareClient.EmptyErrorList`). It is not reported as an unexpected shape.
- `setup_completed` is an allowed settings key, so `PUT /api/settings/setup_completed` marks setup complete whatever is configured (`SettingsApi.CompletionFlagWritable`).
- The size recorded for a sent attachment is `floor(len * 3 / 4)` of its base64 text, not its byte length; see Findings.
- Session expiry is the exception: the store compares integer instants in time order, the corrected behaviour of the first Findings row. The text comparison the query performs is modelled on its own in `Expiry`.
- Adding a default address is two statements. When the second throws, two defaults remain (`SetupApi.DefaultLeftBehind`).
- SetupApi.DnsJson: the `dnsRecords` of `POST /cloudflare` are written with the five fields the model keeps (id, type, name, content, ttl); the code passes on Cloudflare's record objects whole, with whatever other fields they carry.
- Utils.VerifyToken: a text `exp` is read as `Number` reads an optionally signed run of decimal digits; fractions, exponents, hexadecimal, `Infinity` and numbers that are not integers are outside the model (they read as NaN here), as is JavaScript's rounding of very large numbers.

## Findings

| source | as written | input that shows it | evidently intended | confidence | as-written member | corrected member |
|---|---|---|---|---|---|---|
| packages/worker/src/db/queries.ts:260 | `expires_at > datetime('now')` compares the ISO text `YYYY-MM-DDTHH:MM:SS.sssZ` with SQLite's `YYYY-MM-DD HH:MM:SS`; on the expiry day `T` sorts after the space | a session that expired at 10:00 is still accepted at 12:00 on the same day | a session is live only before its expiry instant | high (not executed) | Expiry.ExpiredSessionStillLive | Expiry.CorrectedFollowsTime |
| packages/worker/src/api/emails.ts:240 | the size of a sent attachment is `Math.floor(content.length * 3 / 4)`, which counts the `=` padding | one byte, base64 `QQ==`, is recorded as size 3, and the download announces `Content-Length: 3` for a 1-byte body | the decoded byte length | high (not executed) | EmailsApi.AsWrittenSizeOverstates | EmailsApi.SentSizeExact |
