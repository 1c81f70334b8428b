# Notedly API: keyset-paginated document listing, access voting and forms

This project models the core of the Notedly notes API (a Symfony/Doctrine
application) in Dafny and proves properties of the model.

- **Recent-documents listing.** A page request (`PageCriteria`: a limit, a
  direction `NEXT`/`PREV`, the named boundaries `id` and `updated_at`, and the
  viewing role) stands for one SQL query. That query keeps the documents that
  are not removed and that the viewer may read, and filters them by the
  row-value bound `(updated_at, id)`. It orders the rows newest first
  (oldest first for `PREV`, then reversed back) and fetches `limit + 1` rows.
  `PagedCollection` turns that window into the displayed rows and the criteria
  of the previous and next pages. A one-row probe on the other side of the
  window confirms whether a page exists there. `RecentDocumentsBuilder` writes
  each pager as a page key `p|n-<id>-<YmdHis>` and decodes such keys back into
  criteria.
- **Access voter.** It decides READ, WRITE and DELETE on a document from the
  role's super flag, its read and write tags, the document's tags and the
  document's author. The listing's visibility filter is the voter's READ rule
  on documents that are not removed.
- **Entities.**
  - `Tag`, with its name rule.
  - `Role`, with its stored and effective roles and its two tag containers.
  - `Document`, whose tag container comes from the `Taggable` behaviour.
  - `Revision`.
- **Form models.** They turn request values into new `Role` and `Document`
  entities.
- **Revision builder.** It snapshots a document's title, format and content,
  and rebuilds that snapshot as revision data.
- **Tag-name uniqueness validator.**
- **Content parser.** It renders a document's content with the parser its
  format names.

## Model conventions

- **Stored rows and the table.**
  - Stored document rows are `DocumentRecord` values: id, `updated_at`, tag ids
    and the removal flag.
  - The document table is a sequence of rows in the order
    `ORDER BY updated_at DESC, id DESC`.
  - A query is a filter followed by a take. A `PREV` query takes from the other
    end and reverses the result back.
- **Entities.** Entities whose setters change them in place are classes:
  `Tag`, `Role`, `Document`, `Revision`, `PageCriteria`, `PagedCollection` and
  both form models. Each exposes a pure view (`Record()`, `View()`,
  `ToShape()`) that the listing and the voter work on.
- **Source.** Cited lines are paths under the repository's `src/` directory.
- **External services.**
  - The database, the password encoder, the tag repository and the three
    content renderers become parameters.
  - `TagRepository::findAllById` is a catalogue sequence searched in table
    order.
  - The encoder and the renderers are `string -> string` functions.
  - The transaction check of the revision builder is a boolean.

## Model

| member | source | states |
|---|---|---|
| Collections.Added | src/Entity/Taggable.php:20-27 | the added value is always present afterwards |
| Collections.AddedElements | src/Entity/Taggable.php:20-27 | after `addTag` the container holds exactly the old values plus the tag; a duplicate-free container stays duplicate-free |
| Collections.AddedIdempotent | src/Entity/Taggable.php:20-27 | adding a tag twice is the same as adding it once (the `contains` guard) |
| Collections.RemoveFirst | src/Entity/Taggable.php:40-47 | removing an absent value changes nothing; removing a present one shortens the container by one and keeps only old values |
| Collections.RemoveUndoesAdd | src/Entity/Taggable.php:20-47 | adding an absent tag and then removing it restores the container exactly |
| Collections.RemoveFirstElements | src/Entity/Taggable.php:40-47 | on a duplicate-free container, removal leaves exactly the other values, still without duplicates |
| Collections.DedupElements | src/Entity/Role.php:96-103 | `array_unique` (and clear-then-add-each) keeps exactly the values of its input |
| Collections.DedupNoDuplicates | src/Entity/Role.php:96-103 | `array_unique` yields no value twice |
| Collections.DedupOfDistinct | src/Entity/Role.php:96-103 | a duplicate-free list is unchanged by `array_unique` |
| Collections.DedupFirstOccurrenceOrder | src/Entity/Role.php:96-103 | `array_unique` lists values in the order of their first occurrence |
| Tags.ValidNameCharacterization | src/Entity/Tag.php:17 | the intended name rule holds iff the name is non-empty, uses only `[a-z0-9_.]`, starts and ends with a letter or digit, and has no two separators in a row |
| Tags.UpperCaseRejected | src/Entity/Tag.php:17 | a name with an upper-case letter fails the rule, both as written and as intended |
| Tags.TrailingLineFeedAccepted | src/Entity/Tag.php:17 | as written, `"abc\n"` matches the name pattern although it is not a valid name |
| Tags.MatchedNameWellFormed | src/Entity/Tag.php:17 | as written, a matching name is well formed once one final line feed, if it has one, is dropped |
| Tags.UniquenessOnlyWhenNewOrUpdated | src/Entity/Tag.php:26-39 | outside the `NewOrUpdated` group, a name that is already taken still passes the tag's constraints |
| Tags.Tag.constructor | src/Entity/Tag.php:41-44 | a tag has its id and name and no title |
| Tags.Tag.SetName | src/Entity/Tag.php:56-61 | `getName` afterwards returns the name set |
| Tags.Tag.SetTitle | src/Entity/Tag.php:68-73 | `getTitle` afterwards returns the (nullable) title set |
| Tags.TagPairs | src/Entity/Document.php:188-199 | the id-to-name pairs have exactly the collection's tag ids as keys |
| Tags.TagPairsNames | src/Entity/Document.php:188-199 | each id maps to the name of the last tag in the collection carrying that id |
| Tags.PairsOf | src/Entity/Document.php:188-199 | the foreach loop builds exactly `TagPairs` of the collection, keyed by its ids |
| TagValidation.NormalizeAll | src/Validator/TagNamesAreUniqueValidator.php:20-22 | every piece is trimmed and lower-cased, position by position |
| TagValidation.CheckedNames | src/Validator/TagNamesAreUniqueValidator.php:20-22 | an array is checked as given; any other value is split on `,` into one more name than it has commas, each trimmed and lower-cased |
| TagValidation.ClashingMeaning | src/Validator/TagNamesAreUniqueValidator.php:28-35 | the violations are exactly the checked names that are already stored, one per clashing position |
| TagValidation.RepeatedClash | src/Validator/TagNamesAreUniqueValidator.php:29-35 | a taken name checked twice raises two violations |
| TagValidation.ClashingStep | src/Validator/TagNamesAreUniqueValidator.php:29-35 | each further checked name adds a violation exactly when it is taken |
| TagValidation.Validate | src/Validator/TagNamesAreUniqueValidator.php:18-36 | an empty array raises nothing; otherwise the loop raises one violation per taken checked name, in order |
| Roles.EffectiveRoles | src/Entity/Role.php:96-103 | effective roles always contain `ROLE_USER`, list no role twice, and hold exactly the stored roles plus `ROLE_USER` |
| Roles.EffectiveRolesOfDistinct | src/Entity/Role.php:96-103 | distinct stored roles without `ROLE_USER` come back in order, followed by `ROLE_USER` |
| Roles.PlainUserRoles | src/Entity/Role.php:96-103 | a role with no stored roles reports `[ROLE_USER]` |
| Roles.Role.constructor | src/Entity/Role.php:65-69 | a new role has no stored roles and two empty tag containers |
| Roles.Role.SetUsername | src/Entity/Role.php:86-91 | the user name afterwards is the one set |
| Roles.Role.GetRoles | src/Entity/Role.php:96-103 | `ROLE_USER` is always present; no role appears twice; exactly the stored roles plus `ROLE_USER` |
| Roles.Role.SetRoles | src/Entity/Role.php:105-110 | the stored roles afterwards are the ones set |
| Roles.Role.SetPassword | src/Entity/Role.php:116-126 | the password afterwards is the one set |
| Roles.Role.GetIsSuper | src/Entity/Role.php:146-149 | a role is super iff `ROLE_SUPER` is among its stored roles |
| Roles.Role.AddTag | src/Entity/Role.php:193-200 | the named container gains the tag unless it holds it already; the other container is unchanged; no duplicates are created |
| Roles.Role.SyncTags | src/Entity/Role.php:202-211 | the named container becomes the distinct given tags in order of first occurrence; the other container is unchanged |
| Roles.Role.RemoveTag | src/Entity/Role.php:213-220 | the named container loses the tag (no change if it is absent); the other container is unchanged; the containers stay duplicate-free |
| Roles.Role.GetTagsReadAsArray | src/Entity/Role.php:159-170 | the read tags as id-to-name pairs keyed by exactly their ids |
| Roles.Role.GetTagsWriteAsArray | src/Entity/Role.php:180-191 | the write tags as id-to-name pairs keyed by exactly their ids |
| Roles.Role.Record | src/Entity/Role.php:146-191 | the voter's view: the id, super iff `ROLE_SUPER` is stored, and the read and write tag ids |
| Roles.AddThenRemove | src/Entity/Role.php:193-220 | adding an absent tag and then removing it restores both containers |
| Documents.FormatFromValue | src/Enum/DocumentFormat.php:9-12 | a value that is found denotes the format with that value |
| Documents.FormatValueRoundTrip | src/Enum/DocumentFormat.php:9-12 | every format is found again from its value |
| Documents.FormatFromValueExact | src/Enum/DocumentFormat.php:9-12 | a string is found iff it is the value of some format |
| Documents.CacheKey | src/Entity/Document.php:219-222 | the key starts with `notes.document_` and is longer than it iff the id is not null |
| Documents.Document.GetCacheKey | src/Entity/Document.php:219-222 | the key is `notes.document_` followed by the id in decimal, or by nothing for a null id |
| Documents.CacheKeyInjective | src/Entity/Document.php:219-222 | distinct ids (null included) never share a cache key |
| Documents.Document.constructor | src/Entity/Document.php:78-82 | a new document has no tags, is not removed, and has no author, title, content, format or dates |
| Documents.Document.SetTitle | src/Entity/Document.php:94-99 | the title afterwards is the one set |
| Documents.Document.SetContent | src/Entity/Document.php:106-111 | the (nullable) content afterwards is the one set |
| Documents.Document.SetFormat | src/Entity/Document.php:170-174 | the format afterwards is the one set |
| Documents.Document.SetUpdatedAt | src/Entity/Document.php:155-160 | the update time afterwards is the one set |
| Documents.Document.SetCreatedAt | src/Entity/Document.php:143-148 | the creation time afterwards is the one set |
| Documents.Document.SetIsRemoved | src/Entity/Document.php:181-186 | the removal flag afterwards is the one set |
| Documents.Document.SetAuthor | src/Entity/Document.php:209-214 | the author afterwards is the one set |
| Documents.Document.AddTag | src/Entity/Taggable.php:20-27 | the tag is appended unless already present; duplicate-freedom is kept |
| Documents.Document.SyncTags | src/Entity/Taggable.php:29-38 | the container becomes the distinct given tags in order of first occurrence |
| Documents.Document.RemoveTag | src/Entity/Taggable.php:40-47 | the tag is dropped, or nothing changes when it is absent; afterwards exactly the other tags remain |
| Documents.Document.GetTagsAsArray | src/Entity/Document.php:188-199 | the document's tags as id-to-name pairs keyed by exactly their ids |
| ListingProperties.StoredDocumentListedIffReadable | src/Domain/Service/RecentDocumentsBuilder.php:113-155 | a stored document is listed for a saved viewer iff it is not removed and the voter grants the viewer READ on the same document |
| Documents.Document.View | src/Entity/Document.php:204-207 | the voter's view: tag ids and the author's id |
| Documents.AddThenRemove | src/Entity/Taggable.php:20-47 | adding an absent tag to a document and then removing it restores its tags |
| Text.TrimPadding | src/Domain/Service/Parser/ContentParser.php:23 | `trim` ignores spaces, tabs, line breaks, NUL and vertical tabs around the text |
| Text.LowerTrimUpToCase | src/Domain/Service/Parser/ContentParser.php:23 | strings equal up to letter case normalise to the same string |
| Text.DecimalRoundTrip | src/Domain/Service/RecentDocumentsBuilder.php:238-241 | an id written in decimal reads back to the same id |
| Text.DecimalInjective | src/Domain/Service/RecentDocumentsBuilder.php:238-241 | distinct ids have distinct decimal texts |
| Timestamps.FormatYmdHis | src/Domain/Service/RecentDocumentsBuilder.php:241 | `format('YmdHis')` yields only digits |
| Timestamps.YearDigits | src/Domain/Service/RecentDocumentsBuilder.php:241 | the year takes at least four digits, and exactly four iff it is before 10000 |
| Timestamps.FormatParseRoundTrip | src/Domain/Service/RecentDocumentsBuilder.php:238-241 | a valid timestamp before year 10000 formats to fourteen digits that read back to it |
| Timestamps.LongYearFormat | src/Domain/Service/RecentDocumentsBuilder.php:241 | from year 10000 on the date part is longer than fourteen digits, so the key pattern cannot read it back |
| AccessVoter.SupportsIsCaseSensitive | src/Security/Voter/DocumentAccessVoter.php:23-30 | lower-case `read`/`write`/`delete` are not supported |
| AccessVoter.NonUserDenied | src/Security/Voter/DocumentAccessVoter.php:36-38 | a token whose user is not a role is denied every attribute |
| AccessVoter.SuperGranted | src/Security/Voter/DocumentAccessVoter.php:44-46 | a super role is granted every attribute |
| AccessVoter.DeleteIsAuthorship | src/Security/Voter/DocumentAccessVoter.php:53-55 | for other roles, DELETE holds iff the role is the author |
| AccessVoter.ReadRule | src/Security/Voter/DocumentAccessVoter.php:48-64 | for other roles, READ holds iff some document tag is a read tag and every document tag is a read tag |
| AccessVoter.WriteRule | src/Security/Voter/DocumentAccessVoter.php:48-73 | for other roles, WRITE holds iff the role is the author, some document tag is a write tag, and every document tag is a write tag |
| AccessVoter.ContainersIndependent | src/Security/Voter/DocumentAccessVoter.php:57-73 | read tags never affect WRITE, and write tags never affect READ |
| AccessVoter.UntaggedDenied | src/Security/Voter/DocumentAccessVoter.php:57-73 | an untagged document cannot be read or written by a role that is not super |
| AccessVoter.OtherAttributesDenied | src/Security/Voter/DocumentAccessVoter.php:75 | any other attribute is denied to a role that is not super |
| AccessVoter.WriteImpliesDelete | src/Security/Voter/DocumentAccessVoter.php:44-75 | whoever may write a document may delete it |
| AccessVoter.ReadMonotone | src/Security/Voter/DocumentAccessVoter.php:57-64 | granting more read tags never takes READ away |
| AccessVoter.Vote | src/Security/Voter/DocumentAccessVoter.php:32-76 | voting on entities is the decision rule applied to the document's tag ids, its author's id and the role's record |
| Criteria.ParseDirectionMeaning | src/Domain/Service/PageCriteria.php:16-23 | a direction is accepted as NEXT or PREV iff it spells that word in any letter case; anything else is refused |
| Criteria.DirectionExamples | src/Domain/Service/PageCriteria.php:16-23 | `next` and `Prev` are accepted; `up` is refused |
| Criteria.PageCriteria.constructor | src/Domain/Service/PageCriteria.php:16-23 | a criteria has its limit and direction, no boundaries and no viewer |
| Criteria.PageCriteria.Create | src/Domain/Service/PageCriteria.php:16-23 | the direction is upper-cased and refused unless it is `NEXT` or `PREV`; an accepted criteria has the limit, that direction, no boundaries and no viewer |
| Criteria.PageCriteria.SetViewer | src/Domain/Service/PageCriteria.php:30-33 | the viewer afterwards is the one set |
| Criteria.PageCriteria.SetBoundary | src/Domain/Service/PageCriteria.php:35-38 | the named boundary is set or overwritten; every other boundary keeps its value; the criteria now has boundaries |
| ListingProperties.WindowWithinMaxResults | src/Domain/Service/PageCriteria.php:45-48 | the query fetches at most `getMaxResults` rows, all of them exactly when more rows lie beyond the bound than the page shows |
| Paging.PagedCollection.IsLast | src/Domain/Service/PagedCollection.php:150-157 | the page is last iff the window is not `getMaxResults` rows long; when it is not last, exactly `limit` rows are shown |
| Paging.PagedCollection.GetFirst | src/Domain/Service/PagedCollection.php:95-102 | a row of the window, and the first displayed row wherever a previous pager is built from it |
| Paging.PagedCollection.GetLast | src/Domain/Service/PagedCollection.php:104-111 | a row of the window, and the last displayed row wherever a next pager is built from it |
| Criteria.PageCriteria.GetBoundary | src/Domain/Service/PageCriteria.php:50-53 | a value is returned iff that name was set |
| Criteria.PageCriteria.IsNext | src/Domain/Service/PageCriteria.php:60-68 | exactly one of `isNext` and `isPrev` holds |
| Criteria.PageCriteria.HasBoundaries | src/Domain/Service/PageCriteria.php:70-73 | true iff some boundary has been set |
| Paging.BoundariesOf | src/Domain/Service/PagedCollection.php:136-148 | one boundary per delimiter, each holding its getter's value on the bound row |
| Paging.StandardBoundaries | src/Domain/Service/RecentDocumentsBuilder.php:23-28 | with the listing's delimiters, a row's boundaries are its id and its update time |
| Paging.DisplayedSlice | src/Domain/Service/PagedCollection.php:36-58 | the shown rows are the window minus its extra row: a consecutive run, `limit` long unless it is the last page, the whole window on the last page |
| Paging.PagerEdges | src/Domain/Service/PagedCollection.php:65-93 | the previous and next pagers exist exactly in the cases the source allows; each keeps the page size and is bound at the first or last shown row |
| Paging.OffsetEdges | src/Domain/Service/PagedCollection.php:118-129 | the probe is one row in the opposite direction, bound at the window's first row going forward and its last row going back |
| Paging.PagedCollection.constructor | src/Domain/Service/PagedCollection.php:24-34 | the collection keeps its window, total, criteria and delimiters; no offset is confirmed yet |
| Paging.PagedCollection.GetItems | src/Domain/Service/PagedCollection.php:36-58 | the shown rows are `Displayed` of the window; the window itself is left untouched |
| Paging.PagedCollection.SetHasOffset | src/Domain/Service/PagedCollection.php:131-134 | the offset flag afterwards is the one set |
| Paging.PagedCollection.BuildSimpleCriteria | src/Domain/Service/PagedCollection.php:136-148 | a fresh criteria with the given limit (or this page's), the direction, and the bound row's boundaries |
| Paging.PagedCollection.GetOffsetCriteria | src/Domain/Service/PagedCollection.php:118-129 | a fresh criteria equal to the probe shape |
| Paging.PagedCollection.GetPrevPager | src/Domain/Service/PagedCollection.php:65-78 | null exactly when there is no previous page; otherwise a fresh criteria equal to the previous pager |
| Paging.PagedCollection.GetNextPager | src/Domain/Service/PagedCollection.php:80-93 | null exactly when there is no next page; otherwise a fresh criteria equal to the next pager |
| Listing.Reverse | src/Domain/Service/RecentDocumentsBuilder.php:106-108 | `array_reverse`: row `i` of the result is row `|s| - 1 - i` of the input, and the length is kept |
| Listing.Take | src/Domain/Service/RecentDocumentsBuilder.php:189 | `LIMIT n` keeps the first `min(n, count)` rows |
| Listing.Eligibles | src/Domain/Service/RecentDocumentsBuilder.php:113-155 | the base query returns no more rows than the table holds (exact membership: `ListingProperties.EligiblesExact`) |
| Listing.InRangeRows | src/Domain/Service/RecentDocumentsBuilder.php:165-173 | the bound filter returns no more rows than it is given (which rows and in what order: `ListingProperties.InRangeRowsExact`, `ListingProperties.InRangeRowsSorted`) |
| Listing.DashedDate | src/Domain/Service/RecentDocumentsBuilder.php:67-68 | the bound date is `YYYY-MM-DD HH:MM:SS`: nineteen characters, dashes, a space and colons at their places, and the fourteen digits back once the separators are removed |
| Listing.CriteriaShape | src/Domain/Service/RecentDocumentsBuilder.php:77-88 | the criteria keep the page size; they are bounded iff direction, id and date are all given and truthy, and then carry that direction and the id and date strings as the two boundaries; otherwise they are the unbounded NEXT first page |
| Listing.DecodeKey | src/Domain/Service/RecentDocumentsBuilder.php:56-75 | a missing or non-matching key gives the first page; a matching key with a truthy id gives the key's direction bound at the date digits read as a time and the id digits read as a number; a falsy id gives the first page |
| Listing.CreateCriteria | src/Domain/Service/RecentDocumentsBuilder.php:77-88 | a fresh criteria without a viewer: bound by the id and date strings when direction, id and date are all truthy, otherwise the first page |
| Listing.ParsePageKey | src/Domain/Service/RecentDocumentsBuilder.php:56-75 | a fresh criteria equal to the key's decoding: the matched key's direction, id and dashed date, or the first page |
| Listing.CreatePageKey | src/Domain/Service/RecentDocumentsBuilder.php:232-243 | the key is empty iff there is no pager |
| Listing.RowBoundaries | src/Domain/Service/RecentDocumentsBuilder.php:23-26 | a pager's boundaries are exactly `id` and `updated_at` |
| Listing.PageOf | src/Domain/Service/RecentDocumentsBuilder.php:22-43 | both pagers of a page can be written as keys |
| Listing.CollectionPagers | src/Domain/Service/RecentDocumentsBuilder.php:28-42 | the collection's pagers are the page's pagers, and both can be written as keys |
| Listing.ProbeShape | src/Domain/Service/RecentDocumentsBuilder.php:30-32 | the probe fetches one row in the opposite direction |
| Listing.CollectionProbe | src/Domain/Service/RecentDocumentsBuilder.php:30-32 | the collection's offset criteria are the probe of the window |
| Listing.PageFor | src/Domain/Service/RecentDocumentsBuilder.php:17-54 | both pagers of a request's page can be written as keys |
| Listing.PageSpec | src/Domain/Service/RecentDocumentsBuilder.php:17-54 | both pagers of the listed page can be written as keys |
| Listing.Render | src/Domain/Service/RecentDocumentsBuilder.php:36-43 | `has_prev` holds iff `prev_key` is non-empty, and `has_next` iff `next_key` is non-empty |
| Listing.ProbeOffset | src/Domain/Service/RecentDocumentsBuilder.php:30-32 | the probe runs the offset criteria with the page's viewer and answers whether a row exists |
| Listing.Report | src/Domain/Service/RecentDocumentsBuilder.php:36-43 | the response read off the collection is the rendering of the window's page |
| Listing.ReportWindow | src/Domain/Service/RecentDocumentsBuilder.php:22-43 | the non-empty branch renders the window's page with the probe's answer for the viewer |
| Listing.GetList | src/Domain/Service/RecentDocumentsBuilder.php:17-54 | `getList` returns `ListSpec` of the table, the request and the viewer |
| ListingProperties.EligiblesExact | src/Domain/Service/RecentDocumentsBuilder.php:113-155 | the base query keeps exactly the table rows that are not removed and are visible to the viewer |
| ListingProperties.EligiblesSorted | src/Domain/Service/RecentDocumentsBuilder.php:113-155 | filtering keeps the newest-first order |
| ListingProperties.InRangeRowsExact | src/Domain/Service/RecentDocumentsBuilder.php:165-173 | the bound filter keeps exactly the rows the condition admits |
| ListingProperties.InRangeRowsSorted | src/Domain/Service/RecentDocumentsBuilder.php:165-173 | the bound filter keeps the newest-first order |
| ListingProperties.BelowClosed | src/Domain/Service/RecentDocumentsBuilder.php:170-172 | `(updated_at, id) < bound` holds of every row older than one it holds of |
| ListingProperties.AboveClosed | src/Domain/Service/RecentDocumentsBuilder.php:166-168 | `(updated_at, id) > bound` holds of every row newer than one it holds of |
| ListingProperties.NextRangeIsSuffix | src/Domain/Service/RecentDocumentsBuilder.php:170-172 | over sorted rows a NEXT bound admits a suffix of the rows |
| ListingProperties.PrevRangeIsPrefix | src/Domain/Service/RecentDocumentsBuilder.php:166-168 | over sorted rows a PREV bound admits a prefix of the rows |
| ListingProperties.RowBound | src/Domain/Service/RecentDocumentsBuilder.php:174-183 | a pager built from a row binds `(updated_at, id)` to that row's values |
| ListingProperties.PrevOfRow | src/Domain/Service/RecentDocumentsBuilder.php:166-168 | bound at row `j` of sorted rows, PREV admits exactly the rows before `j` |
| ListingProperties.NextOfRow | src/Domain/Service/RecentDocumentsBuilder.php:170-172 | bound at row `j` of sorted rows, NEXT admits exactly the rows after `j` |
| ListingProperties.ReverseTakeReverse | src/Domain/Service/RecentDocumentsBuilder.php:104-108 | taking `n` rows oldest first and reversing gives the last `n` rows in newest-first order |
| ListingProperties.PageEdges | src/Domain/Service/PagedCollection.php:36-93 | a window's page shows `Displayed`, keeps the total, and has each pager exactly when the source allows it, bound at the first or last shown row |
| ListingProperties.NextWindow | src/Domain/Service/RecentDocumentsBuilder.php:170-189 | a NEXT window over sorted rows is up to `limit + 1` rows from the first row the bound admits |
| ListingProperties.PrevWindow | src/Domain/Service/RecentDocumentsBuilder.php:104-189 | a bounded PREV window is up to `limit + 1` rows just before the first row the bound rejects, newest first |
| ListingProperties.ProbeBefore | src/Domain/Service/RecentDocumentsBuilder.php:205-217 | the probe before row `j` finds a row iff `j` is not the first |
| ListingProperties.ProbeAfter | src/Domain/Service/RecentDocumentsBuilder.php:205-217 | the probe after row `j` finds a row iff `j` is not the last |
| ListingProperties.NextProbe | src/Domain/Service/RecentDocumentsBuilder.php:205-217 | the probe of a NEXT window starting at row `k` finds a row iff `k > 0` |
| ListingProperties.PrevProbe | src/Domain/Service/RecentDocumentsBuilder.php:205-217 | the probe of a PREV window ending before row `k` finds a row iff row `k` exists |
| ListingProperties.PageOfWindow | src/Domain/Service/RecentDocumentsBuilder.php:17-43 | a request with a non-empty window gets that window's page, with the probe's answer as the offset |
| ListingProperties.NextPageFromWindow | src/Domain/Service/RecentDocumentsBuilder.php:17-43 | a NEXT window starting at row `k` shows `limit` rows from `k`, with a previous pager iff rows precede `k` and a next pager iff more than `limit` follow |
| ListingProperties.NextPageAt | src/Domain/Service/RecentDocumentsBuilder.php:17-43 | the same over sorted rows, where the probe answers by itself |
| ListingProperties.NextPageNone | src/Domain/Service/RecentDocumentsBuilder.php:46-53 | a NEXT request that admits no row gets the empty page |
| ListingProperties.PrevPageFromWindow | src/Domain/Service/RecentDocumentsBuilder.php:17-43 | a bounded PREV window ending before row `k` shows the last `limit` rows before `k`, with a previous pager iff more than `limit` precede and a next pager iff rows follow |
| ListingProperties.PrevPageAt | src/Domain/Service/RecentDocumentsBuilder.php:17-43 | the same over sorted rows |
| ListingProperties.PrevPageNone | src/Domain/Service/RecentDocumentsBuilder.php:46-53 | a PREV request whose bound rejects the first row gets the empty page |
| ListingProperties.EmptyWindowPage | src/Domain/Service/RecentDocumentsBuilder.php:46-53 | an empty window gives no rows, a total of 0 and no pagers |
| ListingProperties.NextPage | src/Domain/Service/RecentDocumentsBuilder.php:17-54 | a NEXT request over sorted rows shows `limit` rows from the first admitted row, with pagers exactly where rows lie beyond |
| ListingProperties.PrevPage | src/Domain/Service/RecentDocumentsBuilder.php:17-54 | a bounded PREV request over sorted rows shows the last `limit` rows before the first rejected row, with pagers exactly where rows lie beyond |
| ListingProperties.NextSlice | src/Domain/Service/RecentDocumentsBuilder.php:17-54 | a NEXT page is a run of consecutive rows whose flags say exactly whether rows precede or follow it |
| ListingProperties.PrevSlice | src/Domain/Service/RecentDocumentsBuilder.php:17-54 | the same for a bounded PREV page |
| ListingProperties.WindowIsSlice | src/Domain/Service/RecentDocumentsBuilder.php:17-54 | every page a request can make is a run of at most `limit` consecutive rows; it has a previous pager iff rows precede it and a next pager iff rows follow; the total is the row count unless the page is empty |
| ListingProperties.PagersOfWindow | src/Domain/Service/PagedCollection.php:65-93 | the pagers of a window's page keep its size and are bound at its edges |
| ListingProperties.PagersOfPage | src/Domain/Service/PagedCollection.php:65-93 | the same for every request's page, the empty one included |
| ListingProperties.ListingIsSlice | src/Domain/Service/RecentDocumentsBuilder.php:17-54 | `getList` over a sorted table shows a run of at most `limit` eligible rows; `has_prev`/`has_next` say exactly whether eligible rows precede or follow it; the total is the eligible count unless nothing is shown |
| ListingProperties.FirstPageListing | src/Domain/Service/RecentDocumentsBuilder.php:56-88 | the first page never offers a previous page and lists the `limit` newest eligible rows |
| ListingProperties.EmptyListing | src/Domain/Service/RecentDocumentsBuilder.php:46-53 | a response with no rows is exactly the bare empty response |
| ListingProperties.DashedRoundTrip | src/Domain/Service/RecentDocumentsBuilder.php:67-68 | the dashed date is a SQL date-time that reads back to the fourteen digits it came from |
| ListingProperties.KeyParse | src/Domain/Service/RecentDocumentsBuilder.php:58-65 | a key built from `p`/`n`, a digit run and fourteen digits matches the pattern and yields those parts |
| ListingProperties.PagerKeyText | src/Domain/Service/RecentDocumentsBuilder.php:232-243 | a pager's key is its letter, the row id in decimal and the update time as `YmdHis` |
| ListingProperties.KeyDecodes | src/Domain/Service/RecentDocumentsBuilder.php:56-75 | the key of a pager bound at a stored row decodes to a bounded request with the same size and direction |
| ListingProperties.KeyBound | src/Domain/Service/RecentDocumentsBuilder.php:174-183 | the decoded text boundaries bind the same `(updated_at, id)` as the row's own values |
| ListingProperties.KeyRoundTrip | src/Domain/Service/RecentDocumentsBuilder.php:56-75 | writing a pager as a key and decoding it gives the same request: size, direction and bound |
| ListingProperties.SameRange | src/Domain/Service/RecentDocumentsBuilder.php:157-192 | requests agreeing on direction, boundedness and bound admit the same rows |
| ListingProperties.SameBoundSamePage | src/Domain/Service/RecentDocumentsBuilder.php:17-54 | requests agreeing on size, direction, boundedness and bound give the same page |
| ListingProperties.PageAfterRow | src/Domain/Service/RecentDocumentsBuilder.php:170-172 | bound at row `j`, NEXT shows the `limit` rows after it and has a previous pager |
| ListingProperties.PageBeforeRow | src/Domain/Service/RecentDocumentsBuilder.php:166-168 | bound at row `a`, PREV shows up to `limit` rows before it and has a next pager |
| ListingProperties.NextPagerAfterRun | src/Domain/Service/PagedCollection.php:80-93 | the next pager of a page showing a run leads to the `limit` rows right after the run |
| ListingProperties.PrevPagerBeforeRun | src/Domain/Service/PagedCollection.php:65-78 | the previous pager of a page showing a run leads to the rows right before the run |
| ListingProperties.PagerKeyRoundTrip | src/Domain/Service/RecentDocumentsBuilder.php:232-243 | a pager bound at a stored row can be written as a key, and the key decodes to the same request |
| ListingProperties.NextKeyOfRun | src/Domain/Service/RecentDocumentsBuilder.php:39 | the next key of a page of storable rows decodes to the next pager's request |
| ListingProperties.PrevKeyOfRun | src/Domain/Service/RecentDocumentsBuilder.php:39 | the previous key of a page of storable rows decodes to the previous pager's request |
| ListingProperties.NextPagerContinues | src/Domain/Service/PagedCollection.php:80-93 | following the next pager lists the `limit` rows right after the page, nothing skipped or repeated |
| ListingProperties.PrevPagerContinues | src/Domain/Service/PagedCollection.php:65-78 | following the previous pager lists the rows right before the page |
| ListingProperties.NextKeyPage | src/Domain/Service/RecentDocumentsBuilder.php:17-75 | following `next_key` lists the `limit` rows right after the page and offers a previous page |
| ListingProperties.PrevKeyPage | src/Domain/Service/RecentDocumentsBuilder.php:17-75 | following `prev_key` lists the rows right before the page and offers a next page |
| ListingProperties.ListedRowsPageable | src/Domain/Service/RecentDocumentsBuilder.php:113-155 | every viewer's eligible rows are sorted and storable, and `getList` is the page over them |
| ListingProperties.DecodedIsPageable | src/Domain/Service/RecentDocumentsBuilder.php:56-88 | a decoded key is NEXT, or PREV with a bound |
| ListingProperties.FirstPageKeys | src/Domain/Service/RecentDocumentsBuilder.php:56-88 | no key, a key that does not match, and id `0` all give the first page |
| ListingProperties.ZeroIdKeyExample | src/Domain/Service/RecentDocumentsBuilder.php:77-88 | `n-0-20200101000000` matches the pattern but decodes to the first page |
| ListingProperties.TrailingLineFeedIgnored | src/Domain/Service/RecentDocumentsBuilder.php:58-62 | one final line feed after a well-formed key is ignored |
| ListingProperties.ListedIffReadable | src/Domain/Service/RecentDocumentsBuilder.php:119-152 | a viewer with an id lists exactly the documents that are not removed and that the voter lets it READ |
| ListingProperties.UnrestrictedViewers | src/Domain/Service/RecentDocumentsBuilder.php:144-152 | without a viewer, or with a super viewer, every document that is not removed is listed |
| ListingProperties.UnsavedViewerSeesNothing | src/Domain/Service/RecentDocumentsBuilder.php:119-137 | a viewer that is not super and has no id lists nothing |
| RoleForms.OrDefault | src/FormModel/RoleFormModel.php:53-58 | a present, non-null input value wins; otherwise the default |
| RoleForms.FindAllById | src/Repository/TagRepository.php:42-49 | the lookup returns only stored tags whose id is listed, and every such tag |
| RoleForms.FindAllByIdIds | src/Repository/TagRepository.php:42-49 | the ids found are exactly the listed ids that exist in the table |
| RoleForms.FindAllByIdSameIds | src/FormModel/RoleFormModel.php:85-93 | the lookup depends only on which ids are listed, so the de-duplication before it changes nothing |
| RoleForms.RoleFormModel.constructor | src/FormModel/RoleFormModel.php:33-58 | each property takes the input value or the default: empty strings, `change_password` true, `is_super` false, no tag ids |
| RoleForms.RoleFormModel.GetTagsRead | src/FormModel/RoleFormModel.php:85-88 | each requested read-tag id once, in order of first mention, and no other |
| RoleForms.RoleFormModel.GetTagsWrite | src/FormModel/RoleFormModel.php:90-93 | each requested write-tag id once, in order of first mention, and no other |
| RoleForms.RoleFormModel.TransformToEntity | src/FormModel/RoleFormModel.php:95-120 | a new role with the user name; the password encoded only when it is to be changed; super: stored `[ROLE_SUPER]` and empty containers; otherwise `[ROLE_USER]` and containers holding exactly the requested tags that exist |
| RoleForms.AcceptedUsernameWellFormed | src/FormModel/RoleFormModel.php:17-21 | with the corrected name pattern, an accepted user name is 4 to 32 characters and well formed by the name rule |
| RoleForms.AsWrittenUsernameWellFormed | src/FormModel/RoleFormModel.php:17-21 | with the pattern as written, an accepted user name is well formed, or a well-formed name of 3 to 31 characters followed by one line feed |
| DocumentForms.DocumentFormModel.constructor | src/FormModel/DocumentFormModel.php:25-30 | title, content and format are copied verbatim |
| DocumentForms.DocumentFormModel.GetFormatAsEnum | src/FormModel/DocumentFormModel.php:47-50 | a format is found iff the string is one of the four values, and it is the format with that value |
| DocumentForms.DocumentFormModel.TransformToEntity | src/FormModel/DocumentFormModel.php:52-61 | fails iff the format string is not a format value; otherwise a new untagged document without an author, with the form's title, content and format |
| DocumentForms.AcceptedFormHasFormat | src/FormModel/DocumentFormModel.php:12-23 | a form passing its constraints always finds its format |
| Revisions.DocumentDataOf | src/Entity/Revision.php:88-95 | rebuilt data carries the stored title, format value and content; it fails with an invalid format iff the format entry is missing, null or unknown |
| Revisions.Revision.GetDocumentData | src/Entity/Revision.php:88-95 | a success carries the stored title, format value and content; the format is refused iff its entry is missing, null or not a format value |
| Revisions.SnapshotRoundTrip | src/Domain/Service/RevisionBuilder.php:28-32 | rebuilding a snapshot gives back the title, format and content; it fails only when the title or the content was null |
| Revisions.Revision.constructor | src/Entity/Revision.php:46-49 | a new revision has no id, no label, an empty object and no document |
| Revisions.Revision.SetLabel | src/Entity/Revision.php:76-86 | the label afterwards is the one set |
| Revisions.Revision.SetData | src/Entity/Revision.php:102-107 | the stored object afterwards is the one set |
| Revisions.Revision.SetDocument | src/Entity/Revision.php:109-119 | the document afterwards is the one set |
| Revisions.Build | src/Domain/Service/RevisionBuilder.php:20-41 | fails, in this order, without a transaction, with a label over 120 characters, or without a format; otherwise a new revision with the document's snapshot, the document and the label, whose data rebuilds to the document's fields |
| Revisions.Restore | src/Domain/Service/DocumentManager.php:144-146 | the document takes the revision's title, content and format |
| Revisions.SnapshotEditRestore | src/Domain/Service/DocumentManager.php:133-154 | snapshot, edit, restore brings back the title, content and format the document had |
| ContentParsing.ParseDispatch | src/Domain/Service/Parser/ContentParser.php:21-30 | after trimming and lower-casing, `html`, `markdown` and `plaintext` go to that parser unchanged; any other format is refused with a message naming the property looked up |
| ContentParsing.PlaintextDispatch | src/Domain/Service/Parser/ContentParser.php:21-30 | `plaintext` is rendered by the plaintext parser |
| ContentParsing.MarkdownDispatch | src/Domain/Service/Parser/ContentParser.php:21-30 | `markdown` is rendered by the markdown parser |
| ContentParsing.HtmlDispatch | src/Domain/Service/Parser/ContentParser.php:21-30 | `html` is rendered by the HTML parser |
| ContentParsing.JsonRefused | src/Domain/Service/Parser/ContentParser.php:29 | `json` has no parser and is refused, naming `jsonParser` |
| ContentParsing.FormatDispatch | src/Domain/Service/Parser/ContentParser.php:21-30 | each stored format goes to its own parser, except JSON, which is refused |
| ContentParsing.CaseIgnored | src/Domain/Service/Parser/ContentParser.php:23 | formats equal up to letter case select the same outcome |
| ContentParsing.UpperCaseFormat | src/Domain/Service/Parser/ContentParser.php:23 | an upper-cased format selects the same outcome |
| ContentParsing.PaddingIgnored | src/Domain/Service/Parser/ContentParser.php:23 | whitespace around the format does not change the outcome |

## Left out

- **Infrastructure.**
  - SQL execution, Doctrine and the database: queries are functions over a
    sorted table of rows.
  - Controllers, managers other than the restore step, the repositories other
    than `findAllById`, serialisation and event listeners.
  - `ValueGroupFunction` and `ContentFilter`: neither is part of this model.
- **Timestamps.**
  - Time zones are not represented; a timestamp is six fields compared
    lexicographically.
  - Timestampable updates of `created_at`/`updated_at` are not represented.
  - `Document::getFormattedDates` is human-readable date text.
  - The revision's `createdAt` is not represented.
- **Omitted fields and generated ids.**
  - `Document.content_meta` is not read by any modelled operation.
  - Ids assigned on flush: a new entity's id is `None`.
  - Tags are modelled only once persisted.
- **Renderers and encoder.**
  - The three renderers (HTML purifier, CommonMark, `htmlentities` with
    `nl2br`) are functions taken as parameters.
  - The password encoder is a function of the plain password alone: salt and
    algorithm are not modelled.
- **PHP values and types.**
  - `RoleForms.RoleFormModel.constructor`: the loop over `FORM_PROPERTIES` is
    written out property by property.
  - Input values of the wrong PHP type are not modelled: truthiness,
    `Type` constraints and type juggling. Absent and null keys alike take the
    default.
  - `DocumentForms.DocumentFormModel.constructor` requires the three keys: the
    source reads them without a default, which fails for a missing key.
  - PHP's loose `in_array`/`array_unique` comparisons: values compare
    exactly.
- **Database refusals.**
  - `Listing.BoundTime` and `Listing.BoundId` read any fourteen decoded date
    digits as a time and any digit run as an id. Examples are month 13,
    day 00, hour 24, or an id above 2^63 - 1. The database refuses such a
    parameter, so the source's query fails with an error. The model has no
    such failure: it lists on that bound as on any other.
- **Listing lemmas.**
  - `ListingProperties.WindowIsSlice` and the page lemmas cover NEXT requests
    and PREV requests with a bound. A PREV request without a bound (which no
    decoded key produces, see `ListingProperties.DecodedIsPageable`) is
    excluded.
  - `Listing.GetList` and the `PagedCollection` pager methods require a limit
    of at least 1: with limit 0 the source reads row `-1`.
  - The key round-trip lemmas need storable rows: an id of at least 1, because
    the id `0` is falsy and decodes to the first page. They also need a year
    before 10000 (see `Timestamps.LongYearFormat`).
- **Weaker contracts.**
  - `Listing.Eligibles` states only a bound on its own; what it keeps is
    `ListingProperties.EligiblesExact`.
  - `Listing.InRangeRows` states only a bound on its own: quantifiers in its
    contract would weigh on every listing proof that unfolds it. Which rows
    it keeps is `ListingProperties.InRangeRowsExact`; their order is
    `ListingProperties.InRangeRowsSorted` and, as a slice,
    `ListingProperties.InRangeRowsSlice`.
  - `Listing.PageOf`, `Listing.PageFor` and `Listing.PageSpec` state only that
    their pagers can be written as keys. What pages they are is stated by
    `ListingProperties.PageEdges`, `ListingProperties.WindowIsSlice` and
    `ListingProperties.ListingIsSlice`.

## Findings

| source | as written | input that shows it | evidently intended | confidence | as-written member | corrected member |
|---|---|---|---|---|---|---|
| src/Entity/Tag.php:17 | `NAME_REGEX` is anchored with `^...$` without the `D` modifier, so `$` also matches before a final line feed; the same pattern is used for role user names (src/Entity/Role.php:23) | the tag name `"abc\n"` passes the `Regex` constraint | the whole name must match the pattern, with no trailing line feed | not executed | Tags.TrailingLineFeedAccepted | Tags.ValidNameCharacterization |
