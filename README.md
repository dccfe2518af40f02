# Office NOC Manager — a verified model of the plugin's core

Office NOC Manager is a WordPress plugin. An employee fills in a form to ask for a No
Objection Certificate (NOC). The submission is stored with a public reference id such as
`NOC2025AB12CD34`. HR then approves or rejects it from the admin screens. On approval the
plugin renders a block-based letter template, with the request's values substituted for
`{{placeholder}}` tokens, into a PDF. Anyone can check the certificate on a public
verification page by reference id.

This Dafny project models that core:

- the placeholder map and literal `str_replace` substitution (`placeholders.dfy`);
- the image reference resolver (`image_resolver.dfy`);
- the block renderer: a class over a placeholder field, with its loops, proved against
  pure rendering functions (`block_renderer.dfy`);
- the request table with reference-id generation, insert, whitelisted update and
  approve/reject, and the filter query builder (`db.dfy`);
- the public verification lookup with its legacy fallback (`verification.dfy`);
- the PDF generator: QR code, header and footer images, the document wrapper and the
  file it writes (`pdf_generator.dfy`);
- the default letter template and its installation (`template_helper.dfy`);
- the front-end form: field validation, client IP, the rate-limit counter and the
  submission handler (`frontend_form.dfy`);
- the admin actions: approve, reject, template save, image removal and review-page values
  (`admin_actions.dfy`);
- plugin bootstrap: the class autoloader, default options and the singleton
  (`bootstrap.dfy`).

Supporting modules:

- `text.dfy` models PHP's string functions (`empty()`, `trim`, `str_replace`,
  `strtolower`, …).
- `dates.dfy` is an ISO calendar.
- `blocks.dfy` is the parsed block tree.
- `host.dfy` is an `Env` record of the WordPress and PHP collaborators the core calls but
  does not define.
- `store.dfy` holds the mutable site state: options, upload files, transients and the
  outbox.

## Model

| member | source | states |
|---|---|---|
| Placeholders.Lookup | includes/class-block-renderer.php:43-66 | a token is absent exactly when no pair has that key; a found value belongs to a pair with that key |
| Placeholders.ReplacePlaceholders | includes/class-block-renderer.php:426-435 | an empty map or empty content is returned as is, and brace-free content passes through any map of tokens unchanged |
| Placeholders.StrReplaceSnoc | includes/class-block-renderer.php:431 | replacing with one more pair is replacing with the others and then substituting the last pair's token everywhere |
| Placeholders.StrReplaceBraceFree | includes/class-block-renderer.php:426-432 | text without braces passes through substitution unchanged |
| Placeholders.TokenOfInjective | includes/class-block-renderer.php:43-66 | distinct placeholder names give distinct `{{name}}` tokens |
| Placeholders.ReplaceOneToken | includes/class-block-renderer.php:431 | replacing one token in a well-formed text fills exactly that token's slots |
| Placeholders.SequentialIsSimultaneous | includes/class-block-renderer.php:426-432 | with brace-free values, the sequential `str_replace` over the map equals filling every slot at once from the map |
| Placeholders.ExpandBraceFree | includes/class-block-renderer.php:426-432 | when every token used has a brace-free value, no `{{`/`}}` survives substitution |
| Placeholders.ValueTokenExpandsAgain | includes/class-block-renderer.php:431 | a value that is itself an earlier-unreplaced token is expanded again by a later pair (substitution is not hygienic) |
| Dates.ParseIsoDay | includes/class-frontend-form.php:195-199 | a `YYYY-MM-DD` string parses exactly when its month is at most 12 and its day at most 31; month 00 counts as the December before |
| Dates.MonthZeroIsPreviousDecember | includes/class-frontend-form.php:197 | `2024-00-15` is accepted and is the same day as `2023-12-15` |
| Dates.DayZeroIsPreviousMonthEnd | includes/class-block-renderer.php:442 | `2024-03-00` is accepted and is the same day as `2024-02-29` |
| Placeholders.NumberOfDays | includes/class-block-renderer.php:35-41 | the day count is 0 exactly when a leave date is unset |
| Placeholders.DaysAtLeastOne | includes/class-block-renderer.php:36-40 | with both dates set the count is at least one (inclusive count) |
| Placeholders.DaysSymmetric | includes/class-block-renderer.php:37-40 | the count uses the absolute difference, so swapping the dates changes nothing |
| Placeholders.DaysExample | includes/class-block-renderer.php:35-41 | 2025-03-10 to 2025-03-12 counts 3 days |
| Placeholders.FormatDate | includes/class-block-renderer.php:437-448 | an empty date formats to '' and an unparsable one is returned unchanged |
| Placeholders.BuiltKeysAreTokens | includes/class-block-renderer.php:43-66 | every key of the built map is a brace-delimited token with a brace-free name |
| Placeholders.BuiltLookup | includes/class-block-renderer.php:43-66 | the built map defines a token exactly for the 22 placeholder names |
| Placeholders.BuildPlaceholders | includes/class-block-renderer.php:29-67 | one entry per placeholder name, in the order of the source array, each keyed by its `{{name}}` token |
| ImageResolver.Inline | includes/class-block-renderer.php:248-265 | an image is inlined exactly when the path is non-empty and readable, its bytes are read and its MIME type is known; the result is `data:<mime>;base64,<bytes>` |
| ImageResolver.FallbackUrl | includes/class-block-renderer.php:267-282 | a root-relative path falls back to the site URL for it |
| ImageResolver.ResolveImage | includes/class-block-renderer.php:198-283 | empty input gives '', a data URI is kept, a readable local image comes back inlined as its data URI, an unreadable http(s) URL is kept, an unreadable root-relative path becomes a site URL; nothing else can come out |
| ImageResolver.ResolveIdempotent | includes/class-block-renderer.php:198-283 | resolving an '' / unchanged / data-URI result again gives the same result |
| ImageResolver.ResolveMissingRelativeFile | includes/class-block-renderer.php:277-280 | a relative path naming no readable file becomes `home_url('/' + path)` rather than '' |
| Rendering.CollectAppend | includes/class-block-renderer.php:150-173 | collecting inner content distributes over concatenation of the fragment list |
| Rendering.CollectAllBlank | includes/class-block-renderer.php:150-173 | gaps and whitespace-only fragments contribute nothing |
| Rendering.BlocksHtmlAppend | includes/class-block-renderer.php:88-93 | rendering a block list is the concatenation of rendering its parts, so siblings render independently |
| Rendering.ParagraphHtml | includes/class-block-renderer.php:150-172 | a paragraph renders as a `<p class="…">` element closed by `</p>` |
| Rendering.HeadingHtml | includes/class-block-renderer.php:174-196 | a heading opens and closes with the tag of its level (`h2` when unset) |
| Rendering.ImageHtml | includes/class-block-renderer.php:288-336 | an image renders nothing exactly when its resolved source is empty |
| Rendering.SpacerHtml | includes/class-block-renderer.php:369-376 | a spacer is a `wp-block-spacer` division whose height is given in pixels |
| Rendering.ListHtml | includes/class-block-renderer.php:377-394 | a list opens and closes with its `ol`/`ul` tag and carries the `wp-block-list` class |
| Rendering.QuoteHtml | includes/class-block-renderer.php:396-416 | a quote is a `wp-block-quote` blockquote element |
| Rendering.BlockHtml | includes/class-block-renderer.php:99-148 | a block without a name renders nothing |
| Rendering.BlocksHtml | includes/class-block-renderer.php:72-97 | a list of nameless blocks renders nothing |
| Rendering.TemplateHtml | includes/class-block-renderer.php:72-97 | an empty template or one that does not decode renders nothing |
| Rendering.NamelessBlockIsSkipped | includes/class-block-renderer.php:100-102 | a block without a name contributes nothing and leaves its siblings' output unchanged |
| Rendering.ContainersConcatenate | includes/class-block-renderer.php:338-368 | a columns/column container's output is its opening tag, its children's output split anywhere, and `</div>` |
| Rendering.ParagraphExample | includes/class-block-renderer.php:150-173 | a paragraph `Hello {{full_name}}` with full_name = Jane Doe renders `<p class="">Hello Jane Doe</p>` |
| Rendering.HeadingTagsMatch | includes/class-block-renderer.php:174-197 | a heading opens and closes with the tag of its `level` attribute, `h2` when unset |
| Rendering.SpacerDefault | includes/class-block-renderer.php:369-376 | a spacer without height is a 100px empty division |
| Rendering.ListTagChoice | includes/class-block-renderer.php:377-395 | a list is an `<ol>` exactly when its `ordered` attribute is truthy, else a `<ul>` |
| Rendering.ListItemOne | includes/class-block-renderer.php:377-395 | a non-blank text entry becomes one `<li>` with placeholders substituted; blanks and gaps give nothing |
| Rendering.ListItemsAppend | includes/class-block-renderer.php:377-395 | list items distribute over concatenation of the entries |
| Rendering.ImageTokenTakesMapValue | includes/class-block-renderer.php:296-298 | an image whose url is the signature/QR/logo token takes the map's value as its source |
| Rendering.ImageTokenMissing | includes/class-block-renderer.php:296-300 | an image token with no map value renders nothing |
| Rendering.ImageEmptyUrl | includes/class-block-renderer.php:288-337 | an image with an empty url renders nothing |
| Rendering.ImageStyleWhenSized | includes/class-block-renderer.php:288-337 | an inline style is emitted exactly when a truthy width or height is given |
| Rendering.BlockRenderer.constructor | includes/class-block-renderer.php:22-24 | a new renderer has an empty placeholder map |
| Rendering.BlockRenderer.SetPlaceholders | includes/class-block-renderer.php:29-67 | the renderer's map becomes the map built from the request and settings |
| Rendering.BlockRenderer.RenderBlocks | includes/class-block-renderer.php:72-94 | the loop's output equals the template's rendering function |
| Rendering.BlockRenderer.RenderSequence | includes/class-block-renderer.php:88-93 | the loop over blocks equals the list-rendering function |
| Rendering.BlockRenderer.RenderBlock | includes/class-block-renderer.php:99-145 | dispatch on the block name equals the block-rendering function |
| Rendering.BlockRenderer.RenderColumns | includes/class-block-renderer.php:338-352 | columns are the flex opening, the children's output and `</div>` |
| Rendering.BlockRenderer.RenderColumn | includes/class-block-renderer.php:353-368 | a column is its width-aware opening, the children's output and `</div>` |
| Rendering.BlockRenderer.CollectContent | includes/class-block-renderer.php:150-173 | the loop keeps exactly the non-blank text fragments, in order |
| Rendering.BlockRenderer.RenderList | includes/class-block-renderer.php:377-395 | the loop's output equals the list-rendering function |
| Db.FindById | includes/class-db.php:176-183 | a found row is in the table with that id; none means no row has it |
| Db.FindByReference | includes/class-db.php:188-195 | a found row is in the table with that reference id; none means no row has it |
| Db.ReferenceShape | includes/class-db.php:99-103 | a reference id is `NOC`, the year, then only upper-case letters and digits |
| Db.ShortRandomPart | includes/class-db.php:100-102 | a draw the generator can produce loses characters to the filter (see Findings) |
| Db.IntendedDrawKeepsLength | includes/class-db.php:100-103 | a draw from A–Z0–9 passes the filter whole, giving `NOC` + year + the full length |
| Db.NewRow | includes/class-db.php:134-147 | an inserted row is pending, has no note or PDF, and carries the sanitized employee id and its reference id |
| Db.PatchOnlyTouchesWhitelist | includes/class-db.php:306-336 | an update changes only status, note and PDF URL of the row with that id and nothing else |
| Db.ApprovePatch | includes/class-db.php:341-353 | the HR note is written only when it is non-empty |
| Db.ApproveIgnoresCurrentStatus | includes/class-db.php:341-353 | approving sets status approved and the PDF URL whatever the previous status |
| Db.RejectKeepsPdf | includes/class-db.php:358-363 | rejecting sets status rejected and keeps any stored PDF URL |
| Db.PagesIsCeiling | includes/class-db.php:296-300 | the page count is the ceiling of total over per-page |
| Db.OffsetSteps | includes/class-db.php:273 | page 1 starts at offset 0 and each page advances by per-page |
| Db.PageCount | includes/class-db.php:296-300 | a zero per-page count fails the request with a division by zero; a positive one gives the ceiling page count; a negative one a count of zero or below |
| Db.NegativePageCountIsCeiling | includes/class-db.php:296-300 | with a negative per-page count the page count is still the ceiling of the quotient |
| Db.PageOf | includes/class-db.php:273-285 | a page holds at most per-page rows; a zero or negative per-page count selects no rows |
| Db.PagesCoverRows | includes/class-db.php:273-285 | every row lies on some page within the page count |
| Db.AddClause | includes/class-db.php:247-270 | when its condition holds the step appends exactly its clause and its values, otherwise both lists stay as they were; the placeholder values stay in step with the clauses |
| Db.FilterMembership | includes/class-db.php:247-270 | a filter clause is in the built list exactly when its step's condition held |
| Db.BuildFilterQuery | includes/class-db.php:230-281 | the clauses are `1=1` then status, search, date-from and date-to, each present exactly when its argument is non-empty (status also whitelisted); the count values are those filters' values in the same order, the LIKE term twice; the page query adds limit and offset last |
| Db.Database.GenerateReferenceId | includes/class-db.php:89-122 | at most ten draws; every earlier draw collided; the first free one is used, else the longer fallback, which is `GeneratedReference`; ids start with `NOC` + year; with A–Z0–9 draws the random part has its full length |
| Db.FirstFreeIsFreeOrFallback | includes/class-db.php:89-122 | the generated id is one of the candidates and free in the table, unless every candidate was taken and it is the unchecked fallback |
| Db.AppendKeepsWellFormed | includes/class-db.php:50-56 | appending a row under the next id with a reference id no row carries keeps ids ascending and below the next id and reference ids unique |
| Db.Database.InsertRequest | includes/class-db.php:127-171 | a missing employee id fails with no change; the insert succeeds exactly when the employee id is present, the driver works and the generated id is not stored yet (the unique key refuses a duplicate); success appends one pending row with the next id and the generated reference id, and reference ids stay unique |
| Db.Database.UpdateRequest | includes/class-db.php:306-336 | an empty patch or a driver failure changes nothing and reports false; otherwise the whitelisted fields are patched and it reports true; the table invariant is kept |
| Db.Database.ApproveRequest | includes/class-db.php:341-353 | success patches the row with the approval fields; failure changes nothing; the table invariant is kept |
| Db.Database.RejectRequest | includes/class-db.php:358-363 | success patches the row with the rejection fields; failure changes nothing; the table invariant is kept |
| Db.PatchKeepsValidIds | includes/class-db.php:306-336 | patching keeps ids unique, ascending and below the next id, and reference ids unique |
| Verification.UrlDecode | includes/class-verification.php:51 | decoding never lengthens the text |
| Verification.UrlDecodePlain | includes/class-verification.php:51 | text without `+` or `%` decodes to itself |
| Verification.NormalizeRef | includes/class-verification.php:48-54 | a normalized reference holds only letters and digits |
| Verification.NormalizeIdempotent | includes/class-verification.php:50-54 | normalizing twice equals normalizing once |
| Verification.NormalizeDropsDash | includes/class-verification.php:50-54 | for any alphanumeric parts `a` and `b`, `a-b` normalizes to `ab` |
| Verification.NormalizeDecodesFirst | includes/class-verification.php:50-54 | for any alphanumeric parts, `a%2Db` is decoded to `a-b` and normalizes to `ab` |
| Verification.StripAllMembership | includes/class-verification.php:72 | a character survives stripping exactly when it is not in the stripped set |
| Verification.LegacyDashedId | includes/class-verification.php:66-79 | for any parts `a` and `b`, stripping the stored id `a-b` gives `ab` |
| Verification.DocumentedLegacyLookup | includes/class-verification.php:48-79 | the reference `NOC2025-AB12CD34` normalizes to `NOC2025AB12CD34` and is found whether the row stores the dashed or the dash-free form |
| Verification.FirstStrippedIndex | includes/class-verification.php:71-78 | the first row whose stripped id matches, with no earlier match |
| Verification.FirstLegacyMatch | includes/class-verification.php:71-78 | a found row's stripped id equals the reference; none means no row's does |
| Verification.Lookup | includes/class-verification.php:63-79 | a found row matches exactly or after legacy stripping; not found exactly when no row matches either way |
| Verification.ExactMatchFirst | includes/class-verification.php:63-67 | when an exact match exists the lookup returns an exact match |
| Verification.UnreachableStoredId | includes/class-verification.php:54-79 | a stored id with punctuation outside the ten stripped characters can never be found |
| Verification.HandleVerification | includes/class-verification.php:40-94 | only the verification page answers; it reports no reference exactly when the normalized reference is empty; a missing row, a row not approved and an approved row give not-found, not-approved and verified with that row |
| Pdf.GenerateQrCode | includes/class-pdf-generator.php:67-94 | the QR image is the encoder's output for the verification URL, or '' when the encoder is missing or fails |
| Pdf.ChosenImage | includes/class-pdf-generator.php:166-170 | the local path option wins when set, else the URL option |
| Pdf.ImageDiv | includes/class-pdf-generator.php:172-186 | a header/footer division appears exactly when the image resolves to something non-empty, and shows the resolved source |
| Pdf.WrapPrefix | includes/class-pdf-generator.php:164-280 | the document opens with the stylesheet head and the header and ends its prefix with the content opening |
| Pdf.WrapSuffix | includes/class-pdf-generator.php:164-280 | the suffix closes the content, adds the footer and closes the document |
| Pdf.WrapHtml | includes/class-pdf-generator.php:164-280 | the document is prefix, content, suffix |
| Pdf.WrapInjective | includes/class-pdf-generator.php:271-277 | different contents give different documents |
| Pdf.HeaderPrefersPath | includes/class-pdf-generator.php:166-167 | a configured header path is used over the header URL |
| Pdf.NoImagesNoDivisions | includes/class-pdf-generator.php:172-186 | with no header or footer configured, neither division appears |
| Pdf.PdfUrl | includes/class-pdf-generator.php:312-317 | the PDF URL lies under the uploads `noc-pdfs/noc-` prefix and ends in `.pdf` |
| Pdf.PdfUrlDeterministic | includes/class-pdf-generator.php:312-317 | references with the same sanitized file name share path and URL |
| Pdf.CreatePdf | includes/class-pdf-generator.php:285-321 | a URL comes back exactly when Dompdf renders; then the directory exists and the bytes are written when the write succeeds; failure touches no file |
| Pdf.RequestDataOf | includes/class-pdf-generator.php:35-48 | the renderer's data carries the request's reference id and the QR image |
| Pdf.RenderDocument | includes/class-pdf-generator.php:50-56 | the HTML equals the wrapped rendering of the stored template for that request |
| Pdf.GeneratePdf | includes/class-pdf-generator.php:17-62 | a missing request or template fails with no file change; a success names that request's PDF URL and happens exactly when Dompdf renders; then the PDF directory exists and the rendered bytes are stored at the PDF path when the write succeeds; any failure leaves the file store unchanged |
| Templates.LetterBlocksKnown | includes/class-template-helper.php:17-98 | every default block has a name the renderer knows |
| Templates.LetterParagraphSlots | includes/class-template-helper.php:17-98 | the default paragraphs sit at the expected positions |
| Templates.LetterSpacersAndImages | includes/class-template-helper.php:17-98 | the spacers and signature/QR image blocks sit at the expected positions |
| Templates.LetterParagraphsSound | includes/class-template-helper.php:17-98 | every default paragraph uses only tokens the map defines |
| Templates.LetterParagraphsStartSolid | includes/class-template-helper.php:17-98 | no default paragraph is blank, so none is skipped |
| Templates.ParagraphBlockHtml | includes/class-block-renderer.php:150-173 | a non-blank paragraph renders as one `<p>` around its substituted text |
| Templates.SubstitutedText | includes/class-block-renderer.php:426-432 | substitution of a well-formed text equals filling its slots |
| Templates.ParagraphRendersExpanded | includes/class-template-helper.php:17-98 | a default-style paragraph renders as `<p>` around its filled slots |
| Templates.SoundExpandsFully | includes/class-template-helper.php:17-98 | a paragraph using only defined tokens leaves no token unreplaced |
| Templates.LetterParagraphRenders | includes/class-template-helper.php:17-98 | each default paragraph renders with every placeholder filled |
| Templates.LetterImagesFromMap | includes/class-template-helper.php:74-97 | the letter's signature and QR images take their sources from the map |
| Templates.InitDefaultTemplate | includes/class-template-helper.php:104-110 | the stored template becomes the encoded default only when none is stored |
| Templates.InstallKeepsStoredTemplate | includes/class-template-helper.php:104-110 | an existing template and every other option are kept |
| Templates.InstallIdempotent | includes/class-template-helper.php:104-110 | installing twice equals installing once |
| Templates.InstalledRendersDefault | includes/class-template-helper.php:104-110 | after installing on an empty store the renderer sees the default letter |
| FrontendForm.Messages | includes/class-frontend-form.php:267-268 | one message per problem, in order |
| FrontendForm.NoProblemsIffAcceptable | includes/class-frontend-form.php:166-265 | validation reports nothing exactly when every field rule holds |
| FrontendForm.Problems | includes/class-frontend-form.php:166-265 | no problem is reported exactly when every field rule holds |
| FrontendForm.EmployeeIdBlankNeverReported | includes/class-frontend-form.php:177-181 | a blank employee id is never reported by validation |
| FrontendForm.LeaveOrderReportedLast | includes/class-frontend-form.php:258-265 | a leave start after its end is reported, as the last problem |
| FrontendForm.Validate | includes/class-frontend-form.php:166-265 | the checks run in source order and produce exactly the problem list the field rules define |
| FrontendForm.AppendLengthCheck | includes/class-frontend-form.php:169-174 | appends the missing or too-short problem for a field |
| FrontendForm.AppendEmployeeIdCheck | includes/class-frontend-form.php:176-181 | appends the employee-id problem, if any |
| FrontendForm.AppendEmailCheck | includes/class-frontend-form.php:183-188 | appends the email problem, if any |
| FrontendForm.AppendDateCheck | includes/class-frontend-form.php:190-202 | appends the missing/format/invalid/range problem of a date |
| FrontendForm.AppendCountryCheck | includes/class-frontend-form.php:218-221 | appends the country problem, if any |
| FrontendForm.AppendLeaveOrderCheck | includes/class-frontend-form.php:258-265 | appends the leave-order problem, if any |
| FrontendForm.FirstSet | includes/class-frontend-form.php:334-343 | the first non-empty header in priority order, none exactly when all are empty or absent |
| FrontendForm.GetClientIp | includes/class-frontend-form.php:326-346 | the loop returns the client IP the priority rule selects |
| FrontendForm.ClientIp | includes/class-frontend-form.php:326-346 | with no header set the address is `0.0.0.0` |
| FrontendForm.ClientIpHasNoComma | includes/class-frontend-form.php:337-341 | a forwarded list is cut to its first address |
| FrontendForm.ClientIpSources | includes/class-frontend-form.php:327-345 | no header gives `0.0.0.0`; the Cloudflare header wins when set |
| FrontendForm.RecordRateLimit | includes/class-frontend-form.php:311-321 | the counter for the client's key is started at 1 or incremented |
| FrontendForm.RecordedCounts | includes/class-frontend-form.php:311-321 | after n recordings the key's counter is n and other keys are unchanged |
| FrontendForm.ThreeSubmissionsPerWindow | includes/class-frontend-form.php:295-306 | the check allows a submission exactly while fewer than three were recorded |
| FrontendForm.HandleSubmission | includes/class-frontend-form.php:138-290 | a bad nonce or invalid form fails with nothing stored or sent; with a good nonce and a valid form it succeeds exactly when the employee id is present, the driver works and the generated id is free, and otherwise replies 'Failed to save request. Please try again.' with no row added; success appends the new row, replies with the generated reference id, sends one confirmation and records the rate counter |
| Admin.GuardPassesIffAllHold | includes/class-gutenberg-admin.php:905-926 | the review guards pass exactly when nonce, capability, non-zero id and note hold, failing with the first broken one's message |
| Admin.GuardFailure | includes/class-gutenberg-admin.php:905-926 | no failure exactly when nonce, capability, non-zero id and note hold; a failure is one of the four guard messages |
| Admin.Approve | includes/class-gutenberg-admin.php:905-951 | after passed guards it approves exactly when the id is positive, the row exists, a template is stored, Dompdf renders the document and the update succeeds; otherwise it replies 'Failed to generate PDF.' or, when only the update failed, 'Failed to update request.'; once the PDF is produced its directory and file are in the store (also when the update then fails), and otherwise the store is unchanged; on approval the row holds the PDF URL and one approval mail is sent; every failure changes no row and sends nothing; the table invariant is kept |
| Admin.Reject | includes/class-gutenberg-admin.php:956-994 | after the guards, rejection succeeds exactly when the update succeeds; then the row is rejected and one rejection mail is sent; the table invariant is kept |
| Admin.SaveTemplate | includes/class-gutenberg-admin.php:679-700 | without capability, submission and nonce nothing changes; otherwise valid JSON is stored, `0`/empty clears, invalid JSON is refused |
| Admin.SaveKeepsTemplateValid | includes/class-gutenberg-admin.php:685-700 | saving keeps the stored template valid JSON or empty and touches no other option |
| Admin.ZeroClearsTemplate | includes/class-gutenberg-admin.php:686-698 | submitting `0` empties the template |
| Admin.RemoveImage | includes/class-gutenberg-admin.php:999-1048 | a known image kind deletes exactly its two options and unlinks its file; failures change nothing |
| Admin.ImageSlotsDisjoint | includes/class-gutenberg-admin.php:1010-1042 | removing one kind of image never touches another kind's options |
| Admin.StatusBadge | includes/class-gutenberg-admin.php:236-248 | the badge class is one of approved, rejected or pending |
| Admin.UnknownStatusIsPending | includes/class-gutenberg-admin.php:236-248 | any status other than approved or rejected shows as pending |
| Admin.ReviewDaysMatchLetter | includes/class-gutenberg-admin.php:383-388 | the review page's total days agrees with the letter's day count |
| Admin.TotalLeaveDays | includes/class-gutenberg-admin.php:383-388 | the total is shown exactly when both leave dates are set, and is then at least one day |
| Bootstrap.AutoloadPathShape | office-noc-manager.php:87-98 | only `ONOC_` classes map to a file `includes/class-<stem>.php` whose stem has no upper case and no underscore |
| Bootstrap.AutoloadPath | office-noc-manager.php:87-98 | a file is looked up exactly for `ONOC_` classes, and it is `includes/class-….php` |
| Bootstrap.PdfGeneratorPath | office-noc-manager.php:94-98 | `ONOC_PDF_Generator` loads `includes/class-pdf-generator.php` |
| Bootstrap.Loader.Autoload | office-noc-manager.php:87-103 | a plugin class whose file exists is required once; anything else changes nothing |
| Bootstrap.FillSpec | office-noc-manager.php:154-190 | each default is stored only where the option is empty, and other options are kept |
| Bootstrap.FillIdempotent | office-noc-manager.php:154-190 | setting defaults twice equals setting them once |
| Bootstrap.DefaultKeysDistinct | office-noc-manager.php:154-190 | the twelve default keys are distinct and do not include `admin_email` |
| Bootstrap.ApplyDefaults | office-noc-manager.php:155-190 | the sequence of `update_option` calls yields the fill of the defaults |
| Bootstrap.SetDefaultOptions | office-noc-manager.php:154-194 | activation fills the defaults from the blog name and admin email, then installs the default template |
| Bootstrap.PluginSlot.GetInstance | office-noc-manager.php:42-47 | the first call creates the instance and later calls return the same one |
| Bootstrap.InstanceIsShared | office-noc-manager.php:42-47 | two calls return the same object |

Where the code differs from the behaviour the plugin is documented to have, this model follows the
code:

- `create_pdf` returns the URL even when `file_put_contents` fails (`Pdf.CreatePdf`), so a
  write failure does not fail generation.
- The legacy verification fallback strips only ten punctuation characters, not every
  non-alphanumeric one (`Verification.UnreachableStoredId`).
- `update_request` reports success even when no row has the id.
- The submission handler's rate-limit check is commented out, so it never refuses. Only
  the counter is recorded.
- A relative image path that names no file becomes a `home_url` rather than ''
  (`ImageResolver.ResolveMissingRelativeFile`).

## Left out

- Email bodies and their delivery through `wp_mail` (`includes/class-email.php`): a sent mail is recorded as its kind and recipient only.
- Admin screens and markup (`includes/class-admin.php`, most of `includes/class-gutenberg-admin.php`) and the JavaScript: presentation only.
- SQL execution: the table is a sequence of rows, and case-insensitive collation and `LIKE` matching are not modelled.
- The print stylesheet is an unspecified constant string; its CSS text is not modelled.
- `preview_pdf`: it renders fixed sample data and streams the bytes; it changes no state.
- Dompdf, the QR encoder, JSON encode/decode, sanitizers, escaping, `strtotime`/`DateTime` and `home_url` are opaque functions of the `Env` record.
- Randomness: `wp_generate_password` draws come in as parameters (`draw`, `extra`).
- `strlen` counts bytes in PHP; the model counts characters.
- Transient expiry (`HOUR_IN_SECONDS`): counters never expire in the model.
- `$_SERVER` entries are strings; non-string values are not modelled.
- The `(int)` cast of posted ids is taken as given: ids arrive as integers.
- Nonces and capabilities are booleans passed in.
- `create_table`, rewrite rules, `create_upload_directory`, `load_plugin` and hook registration: WordPress wiring with no logic to prove.
- `get_requests_by_status` (includes/class-db.php:200-225) is left out: nothing in the plugin calls it. Its unconditional `WHERE status = %s` filter runs in SQL, and its only arithmetic is the offset and `ceil(total/per_page)` that `Db.Offset` and `Db.PageCount` model for `get_requests_filtered`.
- WordPress's own `render_block` for unknown block names is an opaque `Env` function; its output gets placeholder substitution like the rest.
- Db.Database.GenerateReferenceId: states the generator's full-length guarantee only for draws from A–Z0–9, because the code as written can draw other characters (see Findings).

## Findings

| source | as written | input that shows it | evidently intended | confidence | as-written member | corrected member |
|---|---|---|---|---|---|---|
| includes/class-db.php:100 | `wp_generate_password(8, false, '0123…Z')` passes the alphabet as the third argument, the boolean `extra_special_chars`; the draw then comes from letters of both cases, digits and the punctuation ``-_ []{}<>~`+=,.;:/?\|`` (space included), and the `[^A-Z0-9]` filter removes what it does not like | the draw `ABCDEFG-` gives a 7-character random part | eight characters drawn from A–Z and 0–9, so every reference id has the fixed length | not executed | Db.ShortRandomPart | Db.IntendedDrawKeepsLength |
