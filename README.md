# Batik marketplace REST API: a Dafny model of the route handlers

This project models the seven Express routers of a batik marketplace back end,
TheKods/REST-API:

- `routes/auth.js`: registration and login.
- `routes/suppliers.js` and `routes/umkm.js`: supplier and UMKM (small
  business) profiles.
- `routes/barang_mentah.js`: raw materials.
- `routes/profil_pembatik.js`: craftsperson profiles.
- `routes/products.js`: batik products.
- `routes/qr_codes.js`: product QR codes.

Each route handler is a module-level `method` that takes the
`Tables.Database` object as its `db` parameter. The object holds every MySQL
table as a map from primary key to row, next to its AUTO_INCREMENT counter. Every method:

- takes the request's parts as parameters;
- returns the JSON reply as an `Http.Response`, which is one of:
  - `Ok(message, data)`;
  - `Fail(status, message)`;
  - `Thrown`, when the handler throws or a middleware hands an error on.
    Depending on where the throw happens, Express answers 500 or the server
    process stops without a reply (see "## Left out");
- states in its `ensures` which reply each input gets and what the tables
  are afterwards.

Modules:

- **Text**: trimming, `split`/`join`, decimal rendering, ASCII lower-casing.
- **Http**: the two token gates. `verifyToken` answers 403 or 500;
  `authenticateToken` answers 401 or 403. This module also holds the
  validation chains. A chain is a list of `if (!ok) return res.status(..)`
  steps, and `FirstHalt` picks the reply of the earliest failing step.
- **Tables**: the rows, the database, and the primary-key scan behind every
  `SELECT ... WHERE`.
- **Auth**: the registration email shape and the register and login routes.
- **Contacts**: the `validateEmail` and `validatePhoneNumber` helpers, and the
  field checks shared by the supplier and UMKM routes.
- **Suppliers, Umkm, Materials, Profiles, Products, QrCodes**: one module per
  router.

Every list reply is specified through `Tables.ScanOf`, the ascending keys of
the matching rows. `Tables.AscendingUnique` shows that this fully determines
the list.

External calls become parameters:

- `jwt.verify`: the set of tokens that verify.
- `jwt.sign`: the token string.
- `bcrypt.hash`: the hash.
- `bcrypt.compare`: a function.
- `QRCode.toDataURL`: a function.
- The multer file path, the current year, and the request protocol and host.

Some behaviours of the code are modelled as written:

- The UMKM update and delete never look the row up. The update still rewrites
  the Auth email of that id and replies with success.
- A craftsperson profile updated without a file gets a NULL image. The next
  read of it throws on `result.image.toString` inside a query callback, which
  stops the server; the scenario `Profiles.EditWithoutImageBreaksRead` shows
  this. Once the server is restarted, every further read of that profile
  stops it again.
- A product's material list `[]` reads back as one entry `material-`.
- A material id containing a comma reads back as two entries.
- The supplier and UMKM email check accepts a quoted local part holding a
  blank, such as `"a b"@ex.com`, which registration refuses. It also refuses
  top-level domains of one character, which registration accepts. Here a
  character is one that is a single UTF-16 unit after lower-casing (see
  "## Left out").

## Model

| member | source | states |
|---|---|---|
| Http.Respond | routes/suppliers.js:12-15 | a gate or validation halt never produces a success reply |
| Http.FirstHaltIsEarliestFailure | routes/auth.js:16-54 | a chain of checks lets the request through iff every check passes; otherwise the reply is the halt of the earliest failing check |
| Http.BearerToken | routes/suppliers.js:14 | Http.HeaderToken: the token taken from `"<scheme> <token>"` is exactly the token |
| Http.VerifyToken | routes/suppliers.js:10-19 | verifyToken rejects only with 403 (no header) or 500 (the token does not verify) |
| Http.AuthenticateToken | routes/products.js:9-20 | authenticateToken rejects only with 401 (no token) or 403 (the token does not verify) |
| Http.GatesAgree | routes/products.js:9-20 | the two gates let exactly the same requests through |
| Http.GatesOnBearerHeader | routes/barang_mentah.js:9-18 | on a `"<scheme> <token>"` header both gates pass iff the token verifies |
| Http.GatesOnHeaderWithoutSpace | routes/qr_codes.js:8-19 | a header without a space yields no token: verifyToken answers 500, authenticateToken 401 |
| Text.TrimStart | routes/auth.js:42 | trimStart drops a blank prefix and leaves a suffix that does not start with white space |
| Text.TrimEnd | routes/auth.js:42 | trimEnd drops a blank suffix and leaves a prefix that does not end with white space |
| Text.TrimmedEmptyIffBlank | routes/auth.js:42-54 | Text.Trim: `s.trim().length === 0` holds exactly when s is all white space |
| Text.Split | routes/products.js:85 | split yields at least one piece and no piece holds the separator |
| Text.SplitPiecesCover | routes/suppliers.js:23 | a property of every character of every piece holds of every character of the text other than the separator |
| Text.SplitAfterJoin | routes/products.js:28 | Text.Join: splitting a joined list of separator-free, non-empty lists gives the list back |
| Text.JoinAfterSplit | routes/products.js:85 | joining the pieces of a split gives the string back |
| Text.SplitLastPiece | routes/suppliers.js:23 | the last piece of a split is the text after the last separator |
| Text.SplitOfEmptyJoin | routes/products.js:28 | the empty list joins to "" and splits back to one empty piece |
| Text.NatToDecimal | routes/barang_mentah.js:73 | an id renders as a non-empty digit string without a leading zero |
| Text.DecimalRoundTrip | routes/barang_mentah.js:73 | reading back the decimal rendering of an id gives the id |
| Text.FormatIdInjective | routes/barang_mentah.js:73 | distinct ids give distinct `material-<id>` (and `user-`, `product-`, `profile-`) strings |
| Text.LowerCaseFixed | routes/suppliers.js:24 | `toLowerCase` (Text.ToLower) leaves a text unchanged iff it has no upper-case letter |
| Text.ToLowerIdempotent | routes/suppliers.js:24 | lower-cased text has no upper-case letter, and lower-casing it again changes nothing |
| Text.ToLowerAppend | routes/suppliers.js:24 | lower-casing distributes over concatenation |
| Tables.SelectWhere | routes/barang_mentah.js:182 | the scan returns, in ascending key order, exactly the keys whose rows match |
| Tables.AscendingUnique | routes/barang_mentah.js:182-195 | two ascending key lists with the same members are equal, so a scan's reply is determined |
| Tables.ScanHeadIsFirst | routes/auth.js:123 | `results[0]` of a scan is the smallest matching key |
| Tables.UpdateWhere | routes/umkm.js:115-116 | an UPDATE by key replaces that row when present, touches no other row and adds no row |
| Tables.RewriteEmailSpec | routes/suppliers.js:129 | Tables.RewriteEmail: the Auth email update sets the email of every row of that account and of no other row |
| Auth.EmailShapeIsPattern | routes/auth.js:17-20 | Auth.IsEmailShape: the registration email test holds iff the text is `local@a.b` with no blank or `@` in any part |
| Auth.ShapeHasParts | routes/auth.js:17 | a string passing the position-wise check is `local@host.tail` with three non-empty runs of `[^\s@]` |
| Auth.PartsHaveShape | routes/auth.js:17 | three non-empty runs of `[^\s@]` joined by `@` and `.` pass the position-wise check |
| Auth.EmailShapeHasOneAt | routes/auth.js:17-20 | an accepted email holds exactly one `@` |
| Auth.UndefinedIsNoEmail | routes/auth.js:17-18 | an absent email (the text "undefined") fails the test |
| Auth.RegisterChecksPass | routes/auth.js:16-54 | registration passes its checks iff the email has the address shape, the password has 8 or more characters and equals its confirmation, the phone number has 12 to 20 characters, the role is one of the two and name, description and address are not blank |
| Auth.InsertAccount | routes/auth.js:68-92 | registration adds a profile row in the role's table and an Auth row pointing at that new id, and nothing else |
| Auth.Register | routes/auth.js:13-95 | a taken email gives 400 "Email already exists"; success iff the checks pass and the email is free; failure changes nothing |
| Auth.LoginChecksPass | routes/auth.js:102-112 | login passes its checks iff the email has the address shape and the role is one of the two; otherwise a 400 |
| Auth.Login | routes/auth.js:99-174 | 404 iff no account has that email and role; 401 iff the first account's hash does not match; success iff the checks pass, the first account's hash matches and its profile row exists, and it returns that account's profile and the token; throws iff the checks pass, an account matches and the password is absent or matches with no profile row |
| Auth.FirstWhereUnique | routes/auth.js:123 | only one Auth row is the first match of the login scan |
| Contacts.PhoneNumberIsPattern | routes/suppliers.js:28-31 | Contacts.ValidatePhoneNumber: the phone test holds iff the number is `62` followed by 10 to 18 digits |
| Contacts.ValidPhoneMeetsRegisterLength | routes/suppliers.js:28-31 | every accepted number is all digits and meets the 12-to-20-character length rule of registration |
| Contacts.PlusPrefixedPhoneRefused | routes/suppliers.js:29 | a `+62...` number within registration's length bounds is still refused |
| Contacts.AtomPiecesCover | routes/suppliers.js:23 | every character of a dot-atom is either a dot or an atom character |
| Contacts.DomainHasInnerDot | routes/suppliers.js:23 | an accepted domain has a dot that is neither its first nor its last character, and holds only dots and atom characters |
| Contacts.DotAtomChars | routes/suppliers.js:23 | a dot-atom local part is non-empty and holds only dots and atom characters |
| Contacts.LowerCharKeepsClasses | routes/suppliers.js:24 | lower-casing changes neither whether a character is allowed in the registration pattern nor whether it is `@`, `.` or `"` |
| Contacts.DotAtomAddressShape | routes/suppliers.js:23 | an address with a dot-atom local part has the registration shape |
| Contacts.LoweredShape | routes/suppliers.js:24 | the registration shape of the lower-cased text carries over to the original |
| Contacts.DotAtomAddressHasRegisterShape | routes/suppliers.js:22-25 | Contacts.ValidateEmail: every email the profile update accepts without a quote also passes the registration test |
| Contacts.OneLetterTopLevelRefused | routes/suppliers.js:23 | `a@b.c` passes registration but fails the profile email test |
| Contacts.OneLetterTopLevelAddressRefused | routes/suppliers.js:22-25 | every text ending in a dot and one character is refused, whatever precedes it (a character of the model: see Left out) |
| Contacts.ShortLastLabelIsNoDomain | routes/suppliers.js:23 | a text shorter than two, or with a dot in one of its last two places, is not a domain |
| Contacts.QuotedLocalPartHasNoRegisterShape | routes/auth.js:17 | a quoted local part with a space fails the registration test |
| Contacts.QuotedLocalPartAccepted | routes/suppliers.js:23 | the same quoted address passes the profile email test |
| Contacts.TwoLabelDomain | routes/suppliers.js:23 | `a.b` with atom labels and a top-level label of two or more characters is an accepted domain |
| Contacts.AddressOfParts | routes/suppliers.js:23 | a valid local part, `@` and a valid domain make an accepted address |
| Contacts.ValidateEmailOfParts | routes/suppliers.js:22-25 | Contacts.ValidateEmail: a valid local part, `@` and a valid domain, with no upper-case letter, pass the email validator |
| Contacts.CreateChecksPass | routes/suppliers.js:75-81 | the create passes iff all four fields are present and the number is valid; otherwise the matching 400 message |
| Contacts.UpdateChecksPass | routes/suppliers.js:103-113 | the update passes iff all fields are present, the email and the number are valid; presence, then email, then number decide the 400 message |
| Suppliers.GetSupplier | routes/suppliers.js:34-68 | 404 iff no supplier row; throws iff no Auth row of the supplier; success iff the token verifies, the row exists and an Auth row of it exists, and it returns the profile with the first account's email |
| Suppliers.CreateSupplier | routes/suppliers.js:71-95 | a valid body adds one row under the next id and replies with that id; an invalid one changes nothing |
| Suppliers.UpdateSupplier | routes/suppliers.js:98-138 | success iff the token, the fields and the row check out; the row is replaced and every Auth row of the supplier takes the new email; otherwise nothing changes |
| Suppliers.DeleteSupplier | routes/suppliers.js:141-163 | 404 iff the row is missing, else exactly that row is removed |
| Umkm.GetUmkm | routes/umkm.js:34-68 | 404 iff no UMKM row; throws iff no Auth row of it; success iff the token verifies, the row exists and an Auth row of it exists, and it returns the profile with the first account's email |
| Umkm.CreateUmkm | routes/umkm.js:71-95 | a valid body adds one row under the next id and replies with that id; an invalid one changes nothing |
| Umkm.UpdateUmkm | routes/umkm.js:98-129 | success iff the token and the fields check out, whether or not the row exists; a missing row stays missing while the Auth emails of that id still change |
| Umkm.DeleteUmkm | routes/umkm.js:132-145 | past the gate, always success, with that key removed |
| Materials.MaterialChecksPass | routes/barang_mentah.js:21-44 | Materials.AcceptsImage and the chain: the create and update pass iff the upload is JPEG/PNG or absent, all fields are present and the price is a positive number; a refused file type throws |
| Materials.ZeroPriceIsRefused | routes/barang_mentah.js:42-44 | a price of 0 is refused with "Price must be a positive number" |
| Materials.ViewIdsDistinct | routes/barang_mentah.js:73 | distinct rows reply with distinct material ids |
| Materials.CreateMaterial | routes/barang_mentah.js:34-64 | 404 iff the supplier is missing; success adds exactly one row under the next id; failure changes nothing |
| Materials.ListWhere | routes/barang_mentah.js:72-80 | the reply formats the matching rows in key order |
| Materials.ReadAllMaterials | routes/barang_mentah.js:67-83 | every material, in key order |
| Materials.ListBySupplier | routes/barang_mentah.js:179-197 | exactly the materials of that supplier, each tagged `user-<id>` of it |
| Materials.GetMaterial | routes/barang_mentah.js:86-111 | 404 iff the row is missing, else its formatted view |
| Materials.UpdateMaterial | routes/barang_mentah.js:114-155 | the supplier is checked before the material; success iff both exist and the checks pass, replacing exactly that row |
| Materials.DeleteMaterial | routes/barang_mentah.js:158-176 | 404 iff the row is missing, else exactly that row is removed |
| Profiles.EditChecksPass | routes/profil_pembatik.js:133-138 | Profiles.ValidateName and Profiles.ValidateYear: the update passes iff the name has 1 to 100 characters and the year lies in (1900, current]; each failure gives its own 400 message; an absent name throws |
| Profiles.CreateIsEditPlusImage | routes/profil_pembatik.js:37-45 | the create's chain is "Image is required." followed by the update's chain |
| Profiles.CreateProfile | routes/profil_pembatik.js:33-54 | success iff the token, the image and the checks pass; it adds exactly one row under the next id |
| Profiles.ListWhere | routes/profil_pembatik.js:63-70 | throws iff some listed row has no image, else formats the matching rows in key order |
| Profiles.ReadAllProfiles | routes/profil_pembatik.js:57-74 | with a verified token it succeeds or throws; every profile in key order, or a throw when any has no image |
| Profiles.ListByUmkm | routes/profil_pembatik.js:106-125 | with a verified token it succeeds or throws; exactly the profiles of that UMKM, or a throw when one has no image |
| Profiles.ListedProfilesBelongTo | routes/profil_pembatik.js:109-124 | every entry of that list carries the requested UMKM id |
| Profiles.GetProfile | routes/profil_pembatik.js:77-103 | 404 iff the row is missing; throws iff its image is NULL; success iff the token verifies and the row has an image, with its formatted view |
| Profiles.UpdateProfile | routes/profil_pembatik.js:128-147 | success iff the token and the checks pass, whether or not the row exists; an existing row takes all five columns, the image becoming NULL without a file |
| Profiles.DeleteProfile | routes/profil_pembatik.js:150-159 | past the gate, always success, with that key removed |
| Profiles.EditWithoutImageBreaksRead | routes/profil_pembatik.js:131-141 | an update without a file succeeds and the next read of that profile throws |
| Products.RowOf | routes/products.js:27-28 | a written product row always has price 0 |
| Products.MaterialIdsRoundTrip | routes/products.js:85-86 | Products.MaterialEntries: a non-empty list of comma-free ids reads back as the same ids, in order |
| Products.EmptyMaterialIdsReadBack | routes/products.js:28 | an empty list reads back as one entry `material-` |
| Products.CommaInsideIdSplits | routes/products.js:85 | an id holding a comma reads back as two entries |
| Products.CreateProduct | routes/products.js:23-33 | throws iff the material ids are not a list; success adds one row under the next id with price 0 |
| Products.ReadAllProducts | routes/products.js:36-58 | every product, in key order |
| Products.GetProduct | routes/products.js:61-104 | with no token, 404 iff the row is missing, else the product with its material ids and its profile |
| Products.UpdateProduct | routes/products.js:107-118 | past the gate and the `join`, always success; an existing row is replaced, no other row changes |
| Products.DeleteProduct | routes/products.js:121-128 | past the gate, always success, with that key removed |
| Products.ListByUmkm | routes/products.js:131-157 | 404 iff the UMKM has no product; success iff the token verifies and the UMKM has a product, with exactly its products in key order |
| Products.ListedProductsBelongTo | routes/products.js:146-154 | every product listed for a UMKM carries `user-<that id>` |
| Products.CreateThenRead | routes/products.js:23-86 | a product created with a non-empty list of comma-free ids reads back with the same ids and price 0 |
| QrCodes.TargetUrlInjective | routes/qr_codes.js:29 | QrCodes.TargetUrl: on one host, distinct products get distinct URLs |
| QrCodes.Upsert | routes/qr_codes.js:34 | the upsert adds or replaces the code of one product and keeps every other |
| QrCodes.UpsertTwiceKeepsLast | routes/qr_codes.js:34 | two upserts for one product leave the later code |
| QrCodes.UpsertsCommute | routes/qr_codes.js:34 | upserts for different products commute |
| QrCodes.Generate | routes/qr_codes.js:22-40 | 400 iff the product id is missing or empty; success stores the encoded URL under that id and replies with it |
| QrCodes.GetCode | routes/qr_codes.js:43-52 | 404 iff no code is stored for the product, else the stored code |
| QrCodes.GenerateThenRead | routes/qr_codes.js:22-52 | reading after a generate returns the generated code |

## Left out

- The 500 replies for database errors are not modelled. Every query
  succeeds in the model.
- Ids:
  - Ids are naturals. MySQL's coercion of non-numeric id text in `WHERE` is
    left out, and so is its case-insensitive collation of email comparisons.
  - Row keys start at 1 and grow by one; AUTO_INCREMENT gaps are not modelled.
  - The QR code table is the exception: it is keyed by the product-id text of
    the request, as a map from text to text. So `"5"` and `"05"` are two keys
    in the model, while a numeric `produk_id` column would merge them into
    one row.
- JavaScript value coercion:
  - Body fields are absent or text. Other JSON values (numbers, arrays,
    objects) are modelled only where a route depends on them: the material
    id list, the price and the year.
  - `isNaN` on text and fractional years are reduced to an explicit
    not-a-number value and an integer year.
- String lengths count code points, not UTF-16 units. Lower-casing covers
  ASCII letters only.
- Contacts.OneLetterTopLevelAddressRefused: the source's `{2,}` counts UTF-16
  units after `toLowerCase`. So a last label of one astral character, such as
  an emoji, or of `İ`, which lower-cases to two units, passes in the source.
  The model counts code points and refuses both.
- Cryptography is not modelled. JWT signing and verification, bcrypt and the
  QR encoder are parameters.
- Base64 encoding of image buffers is left out: replies carry the bytes.
- The multer storage and the 1 MiB size limit are left out. A refused file
  type is modelled as `Thrown`, the error handed to Express.
- Products:
  - The LEFT JOINs of the product reads can repeat a product once per matching
    material or supplier (routes/products.js:38-43). The model lists each
    product once.
  - The single read's per-material fields taken from `results[index]`
    (routes/products.js:87-92) are left out; only the material ids are
    modelled.
- GetProduct: the read is modelled as succeeding whenever the row exists. The
  source throws when the stored id list names more materials than the joined
  rows, since `results[index]` is then undefined (routes/products.js:85-92).
  This happens for a repeated id such as `1,1`, or for ids of deleted
  materials such as `5,6`.
- CreateThenRead: for the same reason, its round trip holds in the source only
  when every stored id names an existing material and no id repeats. The model
  does not state that condition.
- The forgot-password route and its mailer (routes/auth.js:178-216) are not
  part of this model.
- `app.js` is not part of this model: which router is mounted where,
  including that it does not mount `routes/qr_codes.js`.
- What happens after a throw is not modelled; the model only marks the
  reply `Thrown`. In the source there are two outcomes, and `app.js` installs
  no handler for either:
  - A throw in the synchronous part of a handler reaches Express's default
    error handler, which answers 500. Examples are `materialId.join` on a
    non-list and `name.length` on an absent name. A refused file type from
    multer also ends here.
  - A throw inside a query callback is an uncaught exception. Examples are
    `authResults[0].email` and `result.image.toString`.
  - A rejection of an async handler or callback is unhandled. Examples are
    Register's `password.length` (routes/auth.js:23) and Login's
    `bcrypt.compare` (routes/auth.js:122).
  - Both of the last two stop the Node process without a reply. The model
    treats every later request as reaching a restarted server with the same
    tables.
- The JSON envelope is reduced to status, message and data. The `error`
  flag and the key names (`result`, `results`, `loginResult`,
  `productId`, ...) are left out.
- The single product read's profile `staredYear` and `image`
  (routes/products.js:97-98) name columns the query does not select, so they
  are always absent. The model leaves them out of the reply.
- Materials.CreateMaterial: the reply is modelled as the stored row's view.
  The source builds it from the body fields, which agree with the row except
  for the number formatting of the price.
