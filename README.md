# Humanoid AI backend: a Dafny model of its core rules

This project models the core of the Django backend behind the "Humanoid AI" chat and business
catalogue service:

- **Token store.** The `auth_tokens` table, which tracks every issued JWT. Its operations:
  - the expiry and validity predicates;
  - revoke, which cascades from a refresh token to its access tokens;
  - per-user bulk revoke;
  - the retention purge, together with the self-referencing `on_delete=CASCADE`;
  - the active-session listing.
- **Request authenticator.** The cookie-first JWT authenticator, which checks each request against the token store.
- **Permissions and registration.** The two permission classes, the registration serializer's own password rules, and account creation.
- **Credential pool.** The maintenance script that adds a credential and purges placeholder values.
- **Business catalogue.** One business per user. Each business holds at most ten products, and each product at most four images:
  - the free-text and upload validators (a ten-line limit, loose `data:` URL parsing, 200 KiB and 1 MiB caps);
  - the model `clean`/`full_clean` rules that every `save` runs;
  - the serializers that write rows and vector documents;
  - the views that guard them, compute product statistics, and map vector-search ids back to rows.
- **Chat turn.** Conversation selection, the title default, the history window, and the undo of this turn's writes when the language model fails.

Modules follow the source files: each core file has its own module, except that models_business.py and models_product.py share `Catalog`, and `Common` and `Uploads` hold the text and upload vocabulary several files use. Table rows are immutable datatypes. Each table is a
class over a `seq` (the token table is a `map` keyed by the token's SHA-256 hex digest). An
operation that changes rows is a method with `modifies`. It is proved against a function of the
old rows, or against a `CatalogInvariant` that every `full_clean` keeps.

Collaborators the code calls but does not define are function parameters:

- SHA-256 (FIPS 180-4);
- base64 decoding (section 4 of RFC 4648), returning `None` on failure;
- the JWT signature and `exp` check (section 4.1.4 of RFC 7519);
- simplejwt header parsing and `get_user`;
- the language model, returning `None` where it raises;
- the random 8-hex-digit uuid suffix;
- the ids a vector search returns.

Time is an integer number of seconds.

The source comment on the chat history says "last 10". The query takes the *first* ten messages
in `created_at` order, and the model follows the code.

Files and modules:

- `common.dfy`: `Common`: Option/Result, bytes, Python `strip`, `split`, `startswith`, `int()`, decimal rendering
- `tokens.dfy`: `TokenStore`
- `authentication.dfy`: `Authentication`
- `permissions.dfy`: `Permissions`
- `registration.dfy`: `Registration`
- `credential_pool.dfy`: `CredentialPool`
- `uploads.dfy`: `Uploads`: the ten-line text validator and `data:` URL parsing
- `catalog.dfy`: `Catalog`: the business, product and image tables, `clean`/`full_clean`, the invariant
- `product_serializers.dfy`: `ProductSerializers`
- `business_serializers.dfy`: `BusinessSerializers`
- `product_views.dfy`: `ProductViews`
- `business_views.dfy`: `BusinessViews`
- `chat.dfy`: `Chat`

## Model

| member | source | states |
|---|---|---|
| TokenStore.ValidThroughExpiryInstant | backend/accounts/models_token.py:72-78 | an unrevoked token is valid exactly while `now <= expires_at`: still valid at the expiry instant, invalid one second later |
| TokenStore.IsExpired | backend/accounts/models_token.py:72-74 | definition: expired iff `now` is strictly after `expires_at` |
| TokenStore.IsValid | backend/accounts/models_token.py:76-78 | definition: valid iff not revoked and not expired; its expiry boundary is proved in `ValidThroughExpiryInstant` |
| TokenStore.RevokeRows | backend/accounts/models_token.py:80-100 | revoking an already revoked row changes nothing; otherwise the row is stamped with the first clock reading and, for a refresh row, every live child is stamped with the second; an access row touches no other row; "`revoked_at` set iff `is_revoked`" is preserved |
| TokenStore.RevokeIdempotent | backend/accounts/models_token.py:90 | revoking twice gives the same table as revoking once, whatever the clock readings |
| TokenStore.RevokeAllRows | backend/accounts/models_token.py:102-111 | every row of the user ends revoked; the user's live rows get the timestamp; revoked rows and other users' rows are unchanged |
| TokenStore.LiveRowNotMatched | backend/accounts/models_token.py:124-128 | with a non-negative retention period, a never-revoked, unexpired row is not matched by the purge filter |
| TokenStore.PurgeMatches | backend/accounts/models_token.py:125-127 | definition of the cleanup filter: `expires_at` before the cutoff, or a non-null `revoked_at` before it (a NULL never matches) |
| TokenStore.Cutoff | backend/accounts/models_token.py:124 | definition: `now` minus `days_to_keep` days of 86400 seconds |
| TokenStore.ActiveSessions | backend/accounts/models_token.py:130-141 | the listed sessions are stored refresh rows of the user that are valid at `now` |
| TokenStore.ExpiryInstantSessionUnlisted | backend/accounts/models_token.py:136-141 | at its expiry instant a live refresh token is valid yet not listed (`expires_at__gt`) |
| TokenStore.ValidSessionListed | backend/accounts/models_token.py:136-141 | every valid refresh row of the user that expires after `now` is listed |
| TokenStore.AuthTokenTable.Revoke | backend/accounts/models_token.py:80-100 | the field updates and the bulk update of the children leave the table equal to `RevokeRows` of the old table |
| TokenStore.AuthTokenTable.RevokeAllUserTokens | backend/accounts/models_token.py:102-111 | the bulk update leaves the table equal to `RevokeAllRows` of the old table |
| TokenStore.AuthTokenTable.CleanupExpiredTokens | backend/accounts/models_token.py:113-128 | deletes exactly the least cascade-closed set (the self-FK at lines 48-54) containing every row the filter matches, keeps all other rows unchanged, and returns how many rows went |
| Authentication.SelectRawToken | backend/accounts/authentication.py:17-28 | the `access_token` cookie wins whenever present; without it the header yields no token (absent, or not a bearer header), a malformed-header failure, or its raw value as bytes |
| Authentication.Authenticate | backend/accounts/authentication.py:16-54 | as written: anonymous iff no raw token; a malformed header fails as such; a failed signature check fails as an invalid token; a signed header token crashes (AttributeError in `hash_token`, backend/accounts/models_token.py:68-70); success iff a cookie is present, passes the signature check, an access-type row with its hash exists and is valid, and the user is active; success returns the claim's user and the validated token |
| Authentication.CheckStoredToken | backend/accounts/authentication.py:34-54 | after the signature passed: "revoked or does not exist" iff no access-type row has the hash; success iff such a row exists, is valid and the user is active; every other outcome is a store failure |
| Authentication.NoCookieNeverAuthenticates | backend/accounts/authentication.py:20-35 | without a cookie no request authenticates: a header token that passes the signature check crashes at `hash_token` |
| Authentication.AuthenticateDecoded | backend/accounts/authentication.py:16-54 | intended behaviour: the header token is decoded as ISO-8859-1 before hashing; never crashes; anonymous, malformed-header and invalid-token outcomes as in the source |
| Authentication.DecodedAgreesOnCookies | backend/accounts/authentication.py:17-35 | with a cookie present the corrected authenticator answers exactly as the source does |
| Authentication.DecodedHeaderActsAsCookie | backend/accounts/authentication.py:20-35 | with the correction, a header token is judged exactly as the same token sent as the cookie |
| Authentication.FailureOrder | backend/accounts/authentication.py:42-52 | missing row, then revoked, then expired decide the failure in that order |
| Authentication.CookieWins | backend/accounts/authentication.py:17-25 | with a cookie present the outcome does not depend on the Authorization header |
| Authentication.RefreshTokenRefused | backend/accounts/authentication.py:37-44 | a refresh token's raw value is refused as "revoked or does not exist" even when its row is live |
| Authentication.RevokedSessionRefused | backend/accounts/authentication.py:37-52 | after `revoke` of a live refresh row, no access token derived from it authenticates |
| Authentication.RevokeAllRefused | backend/accounts/authentication.py:37-52 | after `revoke_all_user_tokens(u)` no token whose row belongs to `u` authenticates |
| Permissions.IsAdminUserHasPermission | backend/accounts/permissions.py:8-13 | granted iff a user is present, authenticated and has role `admin`; the anonymous user is always refused |
| Permissions.IsUserOrAdminHasObjectPermission | backend/accounts/permissions.py:20-25 | an admin is granted every object; a non-admin only its own user object; the anonymous user raises (no `role`) |
| Permissions.NonAdminSeesOnlySelf | backend/accounts/permissions.py:25 | for a non-admin, permission holds iff the object is the requesting user |
| Registration.ValidatePassword | backend/accounts/serializers.py:36-64 | accepted, unchanged, iff at least 8 characters with an A–Z, a 0–9 and a special character; each error holds exactly when every earlier rule passed and its own fails |
| Registration.AcceptedPasswordExample | backend/accounts/serializers.py:44-64 | example only: `Secret1!` meets every rule and is returned unchanged (the general acceptance iff is `ValidatePassword`'s contract) |
| Registration.ShortPasswordRefused | backend/accounts/serializers.py:44-47 | every password shorter than 8 characters is refused as too short, whatever the later rules would say |
| Registration.ValidateRegistration | backend/accounts/serializers.py:66-71 | accepted, unchanged, iff the two passwords agree |
| Registration.CreateUser | backend/accounts/serializers.py:73-84 | the arguments handed to `create_user` are the given username, password and email, the given first and last name (each `''` when missing) and role `user` |
| Registration.RegisteredUserIsNotAdmin | backend/accounts/serializers.py:82 | a self-registered account never passes `IsAdminUser` |
| CredentialPool.FirstAdmin | backend/add_valid_token.py:29 | none iff no admin; otherwise the first admin in the user table's default order (newest `created_at` first) |
| CredentialPool.WithoutPlaceholders | backend/add_valid_token.py:58-70 | exactly the non-placeholder rows are kept; the kept count plus the placeholder count is the old size |
| CredentialPool.IsPlaceholder | backend/add_valid_token.py:60-61 | definition: the token value is one of `a`, `aa`, `test`, `your-huggingface-token-here` |
| CredentialPool.HasToken | backend/add_valid_token.py:37 | definition of `filter(token=value).exists()`: some pool row holds exactly that value |
| CredentialPool.PurgeIdempotent | backend/add_valid_token.py:58-70 | purging twice is purging once, and no placeholder survives |
| CredentialPool.ZeroCountKept | backend/add_valid_token.py:64-69 | when `count()` is zero, skipping the delete leaves the pool as the purge would |
| CredentialPool.PlaceholderNotDuplicateAfterPurge | backend/add_valid_token.py:95-99 | after the purge a placeholder value is never reported as already present |
| CredentialPool.Pool.AddToken | backend/add_valid_token.py:25-55 | adds iff there is an admin and the value is not pooled; then exactly one active row with the value, the name and the first admin as creator; otherwise the pool is unchanged |
| CredentialPool.Pool.DeleteInvalidTokens | backend/add_valid_token.py:58-70 | the pool becomes `WithoutPlaceholders` of the old pool; the count is the number of placeholder rows |
| CredentialPool.Pool.PurgeThenAdd | backend/add_valid_token.py:95-99 | the duplicate check sees the purged pool; the result is the purged pool plus at most the new row |
| Uploads.LineCount | backend/accounts/serializers_product.py:58-59 | `len(text.split('\n'))` is the number of newlines plus one |
| Uploads.ValidateTenLineText | backend/accounts/serializers_product.py:53-65 | blank after strip iff empty-text error; accepted iff the stripped text is non-empty with at most ten lines; the result is the stripped text; a too-many-lines error carries the line count. The same validator is repeated at serializers_product.py:261-273 and at serializers_business.py:25-37 and 152-164 |
| Uploads.ValidateTenLineTextIdempotent | backend/accounts/serializers_product.py:65 | the stripped text the validator returns passes it again unchanged |
| Uploads.LineLimitError | backend/accounts/models_product.py:46-51 | only non-empty text is checked; refused iff its stripped text has more than ten lines, reporting the count |
| Uploads.ValidatedTextPassesLineLimit | backend/accounts/models_business.py:65-72 | text a serializer accepted always passes the model's `clean` line check |
| Uploads.WhitespaceOnlyText | backend/accounts/models_business.py:67 | every non-empty whitespace-only text passes `clean` but the serializers' validator refuses it as empty |
| Uploads.SplitDataUrl | backend/accounts/serializers_product.py:91-99 | a value without `data:` is the payload with type `image/jpeg`; a `data:` value fails iff it has no comma; the payload follows the first comma; the type holds no `;` |
| Uploads.DataUrlRoundTrip | backend/accounts/serializers_product.py:91-99 | `data:<type>;<params>,<payload>` parses back to exactly that type and payload |
| Uploads.SplitDataUrlAt | backend/accounts/serializers_product.py:91-95 | a `data:` header without a comma, followed by a comma and a payload, yields the text between the first `:` and the next `;` as the type and everything after the comma as the payload |
| Uploads.DecodeUpload | backend/accounts/serializers_product.py:91-103 | succeeds iff the split succeeds and the payload decodes; carries the parsed type and the decoded bytes |
| Uploads.IsImageType | backend/accounts/serializers_product.py:107 | definition of `content_type.startswith('image/')` (also at lines 313 and in the logo validator) |
| Common.ParseInt | backend/accounts/views_business.py:122 | `int()`: fails on blank text; a negative result comes only from a leading `-`; without a sign the stripped text starts with a digit |
| Common.ParseIntDecimal | backend/accounts/views_business.py:122 | `int()` of the decimal rendering of an id gives the id back |
| Catalog.ValidateImageSize | backend/accounts/models_business.py:7-11 | accepted iff at most 200·1024 bytes; no field attaches this validator, so it never runs in `full_clean` (it is the bound the logo serializer is compared with) |
| Catalog.BusinessClean | backend/accounts/models_business.py:65-72 | passes iff the info is empty or its stripped text has at most ten lines; otherwise reports the line count |
| Catalog.ProductClean | backend/accounts/models_product.py:44-59 | the line limit first; then, on creation only, refused iff the business already has ten or more products |
| Catalog.ImageClean | backend/accounts/models_product.py:117-157 | passes iff: on creation fewer than four images exist; non-empty data keeps the total minus the old size plus the new size within 1 MiB; a non-empty type starts with `image/`; the order lies in 0..3. The count and size errors come first, in that order |
| Catalog.OneMiBBoundary | backend/accounts/models_product.py:138-141 | a total of exactly 1 MiB passes, one byte more is refused |
| Catalog.ProductCount | backend/accounts/models_product.py:55 | `filter(business=b).count()`: at most the table size |
| Catalog.ProductCountZero | backend/accounts/models_product.py:55 | the count is zero iff no product belongs to the business |
| Catalog.ImageCount | backend/accounts/models_product.py:121 | `filter(product=p).count()`, the image counterpart of `ProductCount` over a different table and key: at most the table size |
| Catalog.ImageCountZero | backend/accounts/models_product.py:121 | the count is zero iff no image belongs to the product |
| Catalog.ImagesTotal | backend/accounts/models_product.py:65-71 | definition of `get_total_images_size`: the byte lengths of the product's images, summed |
| Catalog.ImagesTotalZero | backend/accounts/models_product.py:65-71 | the total is zero iff every image of the product holds no bytes |
| Catalog.BusinessFullClean | backend/accounts/models_business.py:65-75 | definition of the `full_clean()` that `save` runs: field checks, then `clean()`, then the unique `user` and `chroma_id` |
| Catalog.ProductFullClean | backend/accounts/models_product.py:44-62 | definition of the `full_clean()` that `save` runs: field checks and the business link, `clean()` with the quota counted only for a new row, then the unique `chroma_id` |
| Catalog.ImageCreateClean | backend/accounts/models_product.py:117-160 | definition of `full_clean()` for a new image: field checks and the product link, `clean()` with the product's count and total, then the free `(product, order)` slot |
| Catalog.ImageSaveClean | backend/accounts/models_product.py:117-160 | definition of `full_clean()` for a saved image: as on creation, but without the count limit, with the row's old size taken out of the total and its own slot excluded |
| Catalog.BusinessOfUser | backend/accounts/views_business.py:123 | none iff no business belongs to the user; otherwise a stored business of that user |
| Catalog.BusinessOfUserFindsRow | backend/accounts/models_business.py:20-25 | with one business per user, the lookup by a stored row's user finds that very row |
| Catalog.EmptyCatalog | backend/accounts/models_product.py:6-161 | the empty tables satisfy the catalogue invariant |
| Catalog.ImageWithinTotal | backend/accounts/models_product.py:65-71 | each image's size is part of its product's total |
| Catalog.ProductCountReplace | backend/accounts/models_product.py:55 | replacing a product by one of the same business leaves every business's count unchanged |
| Catalog.ImageSumsReplace | backend/accounts/models_product.py:121-141 | replacing an image by one of the same product keeps every count and swaps the old size for the new in that product's total |
| Catalog.DropImagesOf | backend/accounts/serializers_product.py:220 | exactly the rows of other products are kept |
| Catalog.DropImagesSlots | backend/accounts/models_product.py:112 | deleting a product's images keeps the remaining `(product, order)` slots distinct |
| Catalog.DropImagesSums | backend/accounts/serializers_product.py:220 | after the delete the product has no images and every other product keeps its count and total |
| Catalog.DropImagesKeepsInvariant | backend/accounts/serializers_product.py:220 | deleting a product's images keeps the catalogue invariant |
| Catalog.BusinessInsertKeepsInvariant | backend/accounts/models_business.py:74-76 | inserting a business that passes `full_clean` keeps the invariant (one business per user, unique vector ids) |
| Catalog.BusinessSaveKeepsInvariant | backend/accounts/models_business.py:74-76 | saving a business that keeps its key, user and vector id keeps the invariant |
| Catalog.ProductInsertKeepsInvariant | backend/accounts/models_product.py:53-63 | inserting a product that passes `full_clean` keeps every business at ten products or fewer, and the rest of the invariant |
| Catalog.ProductSaveKeepsInvariant | backend/accounts/models_product.py:53-63 | a save, which skips the quota check, still keeps counts within ten because it keeps the business |
| Catalog.ImageInsertKeepsInvariant | backend/accounts/models_product.py:117-161 | inserting an image that passes `full_clean` keeps at most four images and 1 MiB per product, orders in 0..3, and unique `(product, order)` |
| Catalog.ImageSaveKeepsInvariant | backend/accounts/models_product.py:128-145 | re-saving an image, its old size taken out of the total, keeps the invariant |
| Catalog.BusinessTable.Insert | backend/accounts/models_business.py:74-76 | a row is inserted under the next key iff it passes `full_clean`; otherwise nothing changes |
| Catalog.BusinessTable.Save | backend/accounts/models_business.py:74-76 | the row is replaced iff it passes `full_clean` against the other rows; otherwise nothing changes |
| Catalog.ProductTable.Insert | backend/accounts/models_product.py:53-63 | inserted under the next key iff `full_clean` passes with the creation quota; otherwise nothing changes |
| Catalog.ProductTable.Save | backend/accounts/models_product.py:53-63 | replaced iff `full_clean` passes without the quota check; otherwise nothing changes |
| Catalog.ImageTable.TotalImagesSize | backend/accounts/models_product.py:65-71 | the loop's total is the sum of the byte lengths of the product's images |
| Catalog.ImageTable.Insert | backend/accounts/models_product.py:117-161 | inserted under the next key iff `full_clean` passes with the creation checks; otherwise nothing changes |
| Catalog.ImageTable.Save | backend/accounts/models_product.py:128-161 | replaced iff `full_clean` passes with the row's old size taken out of the total |
| Catalog.ImageTable.DeleteImagesOf | backend/accounts/serializers_product.py:220 | the rows become `DropImagesOf` the old rows |
| ProductSerializers.ValidateImagesUpload | backend/accounts/serializers_product.py:67-124 | an empty list passes as is; accepted iff at most four entries, every non-empty entry decodes to an `image/` type, and the decoded total is at most 1 MiB. The count error is given iff there are more than four entries; any decode or content-type failure is the invalid-entry error ("Image i: Invalid image data"), which names the first bad non-empty entry; a total error carries the total |
| ProductSerializers.ScanUploads | backend/accounts/serializers_product.py:83-113 | succeeds iff every non-empty entry decodes to an `image/` type, and then yields the decoded total of the whole list; a failure names a non-empty rejected entry with every non-empty entry before it accepted |
| ProductSerializers.ValidateImages | backend/accounts/serializers_product.py:275-330 | accepted iff one to four entries, none empty, each decodes to an `image/` type, and the total is at most 1 MiB; the empty-list error iff the list is empty, the count error iff it has more than four entries; an empty entry, and any decode or content-type failure ("Image i: Invalid image data"), names the first failing entry; a total error carries the total |
| ProductSerializers.ImageListAcceptedIsUploadAccepted | backend/accounts/serializers_product.py:67-124 | a list `validate_images` accepts is non-empty and `validate_images_upload` accepts it too |
| ProductSerializers.ValidateProduct | backend/accounts/serializers_product.py:126-146 | updates pass; a creation passes iff the business has fewer than ten products (or none resolves) and the upload list is present and non-empty; the quota error comes first |
| ProductSerializers.ImageFor | backend/accounts/serializers_product.py:187-193 | image `i` takes order `i` and filename `product_{id}_image_{i+1}` |
| ProductSerializers.PlannedImages | backend/accounts/serializers_product.py:172-193 | one row per non-empty, decodable upload, of the product, with its order inside the list |
| ProductSerializers.PlannedOrdersIncrease | backend/accounts/serializers_product.py:172-193 | the created rows' orders strictly increase, so slots are distinct |
| ProductSerializers.PlannedTotal | backend/accounts/serializers_product.py:172-193 | the created rows hold exactly the bytes the validator summed |
| ProductSerializers.PlannedCount | backend/accounts/serializers_product.py:172-175 | when every non-empty upload decodes, one row is created per non-empty upload |
| ProductSerializers.StoreImages | backend/accounts/serializers_product.py:172-193 | keeps the invariant and the existing rows; succeeds iff every upload can be stored after the ones before it (`StoreAccepts`), and then adds exactly the planned rows; a failure names the first upload that cannot be stored (a crash iff it does not decode), with the planned rows of the uploads before it left in place |
| ProductSerializers.StoreEntry | backend/accounts/serializers_product.py:173-193 | keeps the invariant; an empty entry adds nothing; crashes iff a non-empty entry does not decode; refused iff it decodes but its row fails `full_clean` against the stored rows; a failure writes nothing and names this entry; a success adds exactly its planned row |
| ProductSerializers.CreateCleanIgnoresKeys | backend/accounts/models_product.py:117-161 | `full_clean` of a new image depends on the stored rows only through their contents, never their keys |
| ProductSerializers.AcceptedEntryWithinQuota | backend/accounts/models_product.py:131-141 | each upload of a list `validate_images_upload` accepts keeps its product within four images and 1 MiB after the uploads before it, when the product had no images |
| ProductSerializers.AcceptedUploadsStore | backend/accounts/serializers_product.py:172-193 | a list `validate_images_upload` accepts is stored in full for a product with no images, when its filenames and content types fit their columns |
| ProductSerializers.CallAddProduct | backend/chat/chroma_service.py:195 | the call succeeds, upserting one product document, iff it passes no `product_db_id`; otherwise it raises before writing |
| ProductSerializers.ProductChromaId | backend/accounts/serializers_product.py:156 | `product_{business.id}_{suffix}` |
| ProductSerializers.NewProduct | backend/accounts/serializers_product.py:152-160 | the row carries the business, the description and the generated vector id |
| ProductSerializers.Create | backend/accounts/serializers_product.py:148-195 | intended behaviour: keeps the invariant; refused iff the new product fails `full_clean`, and then nothing changes; succeeds iff it passes and then every upload can be stored for it; otherwise the product is inserted and its description upserted, and on success exactly the planned image rows follow |
| ProductSerializers.FreshProductStoresAcceptedList | backend/accounts/serializers_product.py:148-193 | a new product under an unused key that passes `full_clean` gets an accepted image list stored in full |
| ProductSerializers.CreateAsWritten | backend/accounts/serializers_product.py:163-169 | as written, always fails: either `full_clean` refuses the product, or the product row stays and the vector call raises TypeError with no vector write and no image |
| ProductSerializers.Revised | backend/accounts/serializers_product.py:203-206 | a given description replaces the stored one; nothing else changes |
| ProductSerializers.Update | backend/accounts/serializers_product.py:197-246 | intended behaviour: keeps the invariant; refused iff a given description fails `full_clean`; succeeds iff that passes and a given image list can be stored once the product's old images are deleted; a given description is saved then upserted; an absent image list leaves images untouched; a given one replaces the product's images, keeping every other row, by exactly the planned rows |
| ProductSerializers.ReplacementStoresAcceptedList | backend/accounts/serializers_product.py:217-246 | after a product's images are deleted, an accepted image list replaces them in full |
| ProductSerializers.UpdateAsWritten | backend/accounts/serializers_product.py:197-246 | as written, a given description is saved and then the vector call raises TypeError, so the images are never replaced; without a description nothing is saved or upserted, and the call succeeds iff a given image list can be stored once the old images are deleted |
| BusinessSerializers.ValidateLogo | backend/accounts/serializers_business.py:39-73 | an empty logo passes; otherwise accepted, unchanged, iff it decodes, is at most 200 KiB and declares an `image/` type; the size error precedes the type error; every failure is "Invalid image data" |
| BusinessSerializers.LogoBoundary | backend/accounts/serializers_business.py:58-65 | 204800 decoded bytes pass, 204801 are refused |
| BusinessSerializers.AcceptedLogoMeetsSizeValidator | backend/accounts/models_business.py:7-11 | a logo the serializer accepts meets the model's `validate_image_size` |
| BusinessSerializers.LogoFields | backend/accounts/serializers_business.py:88-99 | the stored logo is the decoded bytes, with the parsed type and filename `business_logo_{username}` |
| BusinessSerializers.BusinessChromaId | backend/accounts/serializers_business.py:84 | `business_{user.id}_{suffix}` |
| BusinessSerializers.NewBusiness | backend/accounts/serializers_business.py:80-85 | the row has the user, the info and the generated vector id, and no logo |
| BusinessSerializers.CreatedBusiness | backend/accounts/serializers_business.py:80-102 | logo fields are set only when a non-empty logo is given, and then from its decoding |
| BusinessSerializers.Create | backend/accounts/serializers_business.py:75-111 | keeps the invariant; an undecodable logo crashes before any write; otherwise the row is inserted iff it passes `full_clean`, then its info is upserted; on failure nothing changes |
| BusinessSerializers.UpdatedBusiness | backend/accounts/serializers_business.py:117-143 | logo fields change only for a non-empty logo; info only when given; key, user and vector id never change |
| BusinessSerializers.Update | backend/accounts/serializers_business.py:113-144 | keeps the invariant; given info is upserted before `save`, so the vector write happens even when `full_clean` then refuses; the row is replaced iff `full_clean` passes |
| BusinessViews.Register | backend/accounts/views_business.py:18-45 | a user who has a business is refused first; then the input check's error (missing info, then the info error, then the logo error); succeeds iff neither applies and the registered row (stripped info, the logo fields of a non-empty logo) passes `full_clean`; that row is inserted under the next key and its info upserted; on failure nothing changes |
| BusinessViews.CheckInput | backend/accounts/serializers_business.py:147-175 | passes iff the info is given or the request is partial, and every given field passes its validator; missing info on a full request is "required"; an info error is reported before a logo error |
| BusinessViews.RegisteredRow | backend/accounts/views_business.py:30-39 | the row carries the user, the stripped info and `business_{uid}_{suffix}`; no logo when none is sent; a valid logo always yields a row |
| BusinessViews.FreshRegistrationClean | backend/accounts/views_business.py:18-39 | a first registration with valid input, a new vector id of at most 255 characters, and a username and logo content type that fit their columns passes `full_clean` |
| BusinessViews.UpdateData | backend/accounts/views_business.py:69-72 | info defaults to the stored info; logo defaults to `''` (no change) |
| BusinessViews.UpdateRequest | backend/accounts/views_business.py:59-75 | a full update without info is "required"; an input-serializer error is returned as is; passes iff the given fields pass and the defaulted info passes again; the result is the stripped defaulted info and the logo |
| BusinessViews.RequestAfterInput | backend/accounts/views_business.py:74-75 | the second serializer passes iff the defaulted info passes the validator; it hands on the stripped info |
| BusinessViews.UpdatedRow | backend/accounts/serializers_business.py:117-143 | an accepted request always yields a row; key, user and vector id are kept and the info is the request's; an empty logo keeps the stored logo fields, a non-empty one sets them from its decoding |
| BusinessViews.UpdatedRowFields | backend/accounts/views_business.py:59-78 | the row an accepted update saves keeps its key, owner and vector id, carries the stripped defaulted info, and keeps the stored logo unless a non-empty one was sent |
| BusinessViews.UpdateView | backend/accounts/views_business.py:59-81 | 404 iff the user has no business; a full update without info is "required"; a refused request returns its error with nothing written; otherwise the info is upserted, and the update succeeds iff the updated row passes `full_clean` (refused otherwise, the upsert staying); on success the user's row, and only it, is replaced |
| BusinessViews.SaveUpdate | backend/accounts/serializers_business.py:113-144 | the info is upserted; succeeds iff the updated row passes `full_clean`, and then only the user's row is replaced; a refusal leaves the rows |
| BusinessViews.ParseBusinessUserId | backend/accounts/views_business.py:120-122 | no id with fewer than two `_`-parts; otherwise `int()` of the second part |
| BusinessViews.ChromaIdRoundTrip | backend/accounts/views_business.py:119-122 | every id built as `business_{uid}_{suffix}` parses back to `uid`, whatever the suffix |
| BusinessViews.SearchHit | backend/accounts/views_business.py:117-124 | a result maps to a business iff its id parses and that user has a business |
| BusinessViews.SearchHits | backend/accounts/views_business.py:116-131 | the collected businesses are stored rows, at most one per result |
| BusinessViews.SearchHitsAppend | backend/accounts/views_business.py:116-131 | the loop keeps result order: hits of a concatenation are the concatenation of hits |
| BusinessViews.RegisteredBusinessFound | backend/accounts/views_business.py:117-131 | a result carrying a stored business's own vector id finds exactly that business |
| BusinessViews.Search | backend/accounts/views_business.py:103-140 | an empty query is refused; otherwise the loop's list is `SearchHits` of the results and `count` is its length |
| ProductViews.CreateView | backend/accounts/views_product.py:27-61 | intended behaviour, over the corrected `ProductSerializers.Create`: no business iff refused as such; at ten products refused before the input is looked at; succeeds iff there is a business under its limit, both validators pass, and `create` succeeds; then the stripped description is stored under the next key, upserted, with exactly the planned images; refusals change nothing |
| ProductViews.FindOwnedProduct | backend/accounts/views_product.py:72-82 | found iff a product with that key belongs to the user's business |
| ProductViews.DescriptionForUpdate | backend/accounts/views_product.py:91 | the given description, else the stored one |
| ProductViews.CheckUpdateInput | backend/accounts/views_product.py:85-86 | accepted iff a given description passes the ten-line text check and a given image list passes `validate_images`; yields the stripped description; a description error carries the validator's own error |
| ProductViews.CheckUpdate | backend/accounts/views_product.py:81-99 | a full update missing either field is refused; passes iff the request has the fields a full update needs, a given image list is accepted, and the defaulted description passes the validator; yields that description stripped |
| ProductViews.UpdateView | backend/accounts/views_product.py:79-105 | intended behaviour, over the corrected `ProductSerializers.Update`: 404 iff the product is not the user's; a full update needs both fields; succeeds iff the request passes and `update` with the stripped defaulted description succeeds; then that description is stored and upserted, and given images replace the product's images with exactly the planned rows while other rows stay; refusals change nothing |
| ProductViews.ProductStats | backend/accounts/views_product.py:131-150 | 404 iff no business; otherwise the count, max 10, and `total + remaining == 10` |
| ProductViews.CanAddMoreMatchesCreateGuard | backend/accounts/views_product.py:149 | `can_add_more` holds iff the create view's limit guard would pass |
| ProductViews.RemainingSlotsNonNegative | backend/accounts/views_product.py:142 | while the quota holds, the remaining slots lie in 0..10 |
| ProductViews.ProductWithChromaId | backend/accounts/views_product.py:179 | none iff no product has that vector id; otherwise a stored product with it |
| ProductViews.SearchHits | backend/accounts/views_product.py:174-193 | the collected products are stored rows, at most one per result |
| ProductViews.SearchFindsStoredProduct | backend/accounts/views_product.py:178-181 | with unique vector ids each stored product is found by its own id; an unknown id is dropped |
| ProductViews.Search | backend/accounts/views_product.py:159-199 | an empty query is refused before any search; otherwise the loop's list is `SearchHits` of the results and `count` its length |
| Chat.HistoryOf | backend/chat/views.py:83-90 | the conversation's turns in creation order, never more than the stored messages |
| Chat.HistoryIgnoresExcluded | backend/chat/views.py:83 | the just-stored user message is not part of its own history |
| Chat.NewConversationHasNoHistory | backend/chat/views.py:66-71 | a conversation no stored message belongs to has an empty history |
| Chat.ConversationTitle | backend/chat/views.py:70 | the given title if non-empty, else the first 50 characters of the message |
| Chat.FindConversation | backend/chat/views.py:60-65 | found iff a conversation with that key belongs to the user |
| Chat.ChatStore.History | backend/chat/views.py:83-90 | the loop yields the first ten turns of the conversation's history, oldest first |
| Chat.ChatStore.StartConversation | backend/chat/views.py:68-71 | appends one conversation under the next key; no stored message belongs to it |
| Chat.ChatStore.AddMessage | backend/chat/views.py:74-78 | appends one message under the next key, keeping every message in a stored conversation |
| Chat.ChatStore.OpenConversation | backend/chat/views.py:59-71 | a truthy id yields that conversation iff the user owns it, with nothing written; otherwise exactly one new conversation of the user is appended under the next id, with the given title or the message's first 50 characters, and it has no messages yet |
| Chat.ChatStore.Post | backend/chat/views.py:51-122 | an unknown or foreign truthy id is a 404 with nothing written; success appends exactly the user then the assistant message, generated from at most ten earliest prior turns (none for a new conversation); model failure restores the stored conversations and messages |

## Left out

- Django REST Framework field-level validation is not modelled: `trim_whitespace`, the `max_length` of serializer fields, and `ListField` bounds. The model starts at the `validate_<field>` methods, and only the first error of a failing serializer is reported.
- The internals of the vector store and embedding model in backend/chat/chroma_service.py are not modelled. Each upsert is one logged write, and a search is the list of ids it returns. Distances and `relevance_score` are floats and are left out.
- SHA-256, base64, JWT signatures, uuid generation and the HuggingFace client are abstract parameters.
- The MB/KB figures in error messages are display-only floats. The size checks are the equivalent integer comparisons.
- Login, logout and registration views, and the management commands, are outside this model. They delegate to simplejwt and Django and write no token rows.
- Least-loaded credential selection and assignment are not defined in the files of this repository and are not modelled.
- The `__main__` block of backend/add_valid_token.py (argv, `input()`, printing) is left out, apart from its purge-then-add order.
- Transactions and concurrency are left out: the code uses none, and every operation is one sequential step.
- Delete views (`destroy`), the `images_count`/`first_image` fields of responses, and conversation `updated_at` are left out. They neither guard nor change the modelled state.
- The 255-character database limit on conversation titles is not modelled.
- TokenStore.AuthTokenTable.CleanupExpiredTokens: `deleted` counts cascaded rows as Django does. The order in which rows are deleted is not modelled.
- Common.ParseInt: Python's `int()` also accepts non-ASCII Unicode digits and `_` separators. Neither can occur in a vector id built by the serializers.
- CredentialPool.Pool.DeleteInvalidTokens: returns the count it prints. The source function returns `None`.
- Chat.ChatStore.Post: the keys used by a failed turn are not reused, as with database auto-increment. Only the stored rows are restored.
- ProductViews.CreateView: models the view over the corrected `ProductSerializers.Create`. As written, every creation that passes the checks stores the product row and then ends in TypeError (see Findings).
- ProductViews.UpdateView: models the view over the corrected `ProductSerializers.Update`. As written, the view always passes a description, so every update that passes the checks saves it and then ends in TypeError (see Findings).
- Registration.ValidatePassword: models only the serializer's own rules. The field also runs Django's `validate_password` (backend/accounts/serializers.py:3, 23), which applies the `AUTH_PASSWORD_VALIDATORS` of the settings; those validators are not part of this model.
- The 2000-character limits on `business_info` and `product_description` come from serializer fields and are not modelled. The models' `TextField` `max_length` is not a model validator, so `full_clean` does not check it.
- TokenStore.ActiveSessions: returns a set, so the `-created_at` ordering of the model (backend/accounts/models_token.py:58) is not modelled; only which rows are listed is.
- Catalog.ValidateImageSize: the source reads `image.size`, which the stored bytes do not have; the model takes the byte length. The function is attached to no field and never runs.
- Registration.CreateUser: states the arguments handed to `create_user`. Django's default user manager then hashes the password and normalises the email domain and the username; that step is not modelled.
- Exceptions raised while formatting search responses are left out. The code catches them and skips the result.

## Findings

| source | as written | input that shows it | evidently intended | confidence | as-written member | corrected member |
|---|---|---|---|---|---|---|
| backend/accounts/serializers_product.py:163-169 | `chroma_service.add_product(..., product_db_id=product.id)`, while `add_product` (backend/chat/chroma_service.py:195) takes only `product_id, product_description, business_id, username`: TypeError after the product row is stored | any valid product creation, e.g. one accepted description and one accepted image | the call without `product_db_id`; the product's vector document and image rows are written | high, not executed | ProductSerializers.CreateAsWritten | ProductSerializers.Create |
| backend/accounts/serializers_product.py:209-215 | the same keyword in `update`: the description is saved, then TypeError; the view always supplies a description (backend/accounts/views_product.py:90-92), so images are never replaced | any valid product update | the call without `product_db_id`; the new images replace the old | high, not executed | ProductSerializers.UpdateAsWritten | ProductSerializers.Update |
| backend/accounts/authentication.py:20-35 | without a cookie the raw token comes from `get_raw_token` as `bytes` and reaches `AuthToken.hash_token`, which calls `token.encode()` (backend/accounts/models_token.py:68-70): AttributeError, a 500, after the signature passed | any request without the `access_token` cookie whose `Authorization: Bearer <valid access token>` header passes the signature check | the header token decoded to text and checked against the store like the cookie | high, not executed | Authentication.NoCookieNeverAuthenticates | Authentication.AuthenticateDecoded |
