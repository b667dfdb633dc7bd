# KeyStone local image fields in Dafny

This project models KeyStone's two local-disk image field types:

- `localimage`: one image attachment per record.
- `localimages`: a list of image attachments per record, each with the `_id` the record store gave it.

It proves properties of that model. The disk is a set of path strings. Uploads, hook outcomes and the move's outcome are plain values the caller passes in.

Modules, in dependency order:

- `Wrappers`: `Option`, `Result` and the `Outcome` a callback reports.
- `Text`: the JavaScript string operations the fields use: `split` (with a `join` to state its round trip), `indexOf`, `replace` of the first match, decimal rendering of a count, and array-index property names.
- `Paths`:
  - `path.join` without normalisation, `basename` and `extname`;
  - the `_resampled` derivative names and paths;
  - the URL that `thumb`, `href` and `format` produce;
  - the `<op>x<width>x<height>` token read by the resampler.
- `Disk`: the filesystem as a class over a path set, with `existsSync`, `readdirSync(...).length`, `move`, `unlinkSync` and the write a resize makes.
- `Hooks`: the `pre.move` and `post.move` chains. They run one by one and stop at the first error.
- `FieldConfig`: the constructor's defaults and the `pre`/`post` registration. Both field types share this code.
- `Attachments`: `exists`, `reset` and `delete` on one attachment. Both field types share these.
- `Upload`: the single-file pipeline.
  1. The allow-list check.
  2. The `pre.move` chain.
  3. `checkExists` with its one-shot collision rule.
  4. The rename in `doMove`.
  5. The move.
  6. Resampling.
  7. The `post.move` chain.

  It is given both as a function (`UploadPipeline`) and as the method that carries it out step by step (`Perform`). `Perform` is proved equal to `UploadPipeline`.
- `LocalImage`: the single-image record (`ImageRecord`) and its request handler.
- `LocalImages`: the list record (`ImagesRecord`) and these operations on it:
  - `removeImage`, with its lookup loop, its positional fallback and `delete` mode;
  - the order directive;
  - the `mode:id,id|mode:id` action directive;
  - `uploadFiles` as a fold over the files that records the callback's calls;
  - the request handler.

`uploadFiles` does not stop at a failing file: it goes on with the rest. A file whose `post.move` hooks fail has already been added to `fileDatas`, so the callback can get that error and later the full `fileDatas` (`LocalImages.ErrorThenAllStored`). The one-shot collision rule is modelled as written: the disambiguated name is not checked again (`Upload.CollisionIsOneShot`).

## Model

| member | source | states |
|---|---|---|
| FieldConfig.SettingsOf | lib/fieldTypes/localimages.js:51-59 | The destination is never empty: it is `dest` when that is set and `public/assets` otherwise. The tokens are `thumbnailx160x160` followed by the configured tokens in their given order. The allowed types, the date prefix and the `filename` option are kept as configured. |
| FieldConfig.ImageField.Create | lib/fieldTypes/localimages.js:23-69 | Fails exactly when `initial` is set, with the initial-field error. Otherwise it returns a fresh field with the derived settings and the configured `pre.move`/`post.move` queues. The constructor at lib/fieldTypes/localimage.js:22-68 is the same code. |
| FieldConfig.ImageField.Pre | lib/fieldTypes/localimages.js:84-91 | Succeeds exactly for the `move` event, returns the field itself and appends `fn` at the end of the queue. Any other event gives the unsupported-event error and leaves the queue unchanged (but see "Left out" on inherited property names). |
| FieldConfig.ImageField.Post | lib/fieldTypes/localimages.js:100-107 | The same as `Pre`, for the `post.move` queue. |
| FieldConfig.ConfiguredTokensParse | lib/fieldTypes/localimages.js:372-384 | A configured token `<op>x<w>x<h>`, with no `x` inside the three parts, reaches the resampler right after the default token and is read as operation `op`, width `w` and height `h`. The default token reads as a 160 by 160 thumbnail. |
| Paths.ParseTokenRoundTrip | lib/fieldTypes/localimages.js:373 | `<op>x<w>x<h>` splits back into operation, width and height when none of the three contains `x`. |
| Text.Split | lib/fieldTypes/localimages.js:373 | Every part is free of the separator and there is at least one part. Its properties are stated by `Text.SplitThenJoin`, `Text.SplitWithoutSeparator`, `Text.SplitAtSeparator` and `Text.JoinThenSplit`. |
| Text.ReplaceFirst | lib/fieldTypes/localimages.js:146 | Definition of `replace` with a string pattern; its properties are stated by `Text.ReplaceFirstInPrefix` and `Paths.PublicAssetsServed`. |
| Text.NatToDecimal | lib/fieldTypes/localimages.js:404-406 | Definition of a count's decimal rendering; its properties are stated by `Text.DecimalRoundTrip`, `Text.LeadingDigitPositive` and `Text.CanonicalRoundTrip`. |
| Text.IndexKey | lib/fieldTypes/localimages.js:227 | Definition of the array-index reading of `images[id]`; its properties are stated by `Text.IndexKeyIsDecimal` and `LocalImages.PositionalFallback`. |
| Text.SeqIndexOf | lib/fieldTypes/localimages.js:469 | `indexOf` gives -1 exactly when the value is absent. Otherwise it gives the first index holding the value. |
| Paths.DefaultTokenSpec | lib/fieldTypes/localimages.js:27-29 | `thumbnailx160x160` reads as operation `thumbnail`, width 160, height 160. |
| Paths.Ext | lib/fieldTypes/localimages.js:147 | The extension is a suffix of the base name. It is empty or starts with the base name's last `.`, which is not its first character; so a non-empty extension is shorter than the base name and holds no other `.`. It is empty exactly when no `.` follows the first character. |
| Paths.StemThenExt | lib/fieldTypes/localimages.js:147 | The stem followed by the extension gives back the base name. |
| Paths.ThumbUrlServesDerivative | lib/fieldTypes/localimages.js:144-149 | When the directory contains `public/`, the `thumb` URL is the derivative path that resampling writes, with its first `public/` served as `/`. |
| Paths.DefaultDestinationUrl | lib/fieldTypes/localimages.js:269-277 | Under the default destination, `format` without a formatter is `/assets/_resampled/<stem>_thumbnailx160x160<ext>`. |
| Paths.PublicAssetsServed | lib/fieldTypes/localimages.js:146 | Replacing the first `public/` in `public/assets` gives `/assets`. |
| Paths.DerivativeListPaths | lib/fieldTypes/localimages.js:371-389 | The per-token paths, in the order the tokens are visited, are exactly the derivative paths of the name. |
| Paths.DerivativePathsCover | lib/fieldTypes/localimages.js:372-382 | Every token's derivative path is among the derivative paths. |
| Paths.DerivativePathsExactly | lib/fieldTypes/localimages.js:372-382 | A path is a derivative path exactly when it is the derivative path of one of the tokens. |
| Paths.TokenOfDerivative | lib/fieldTypes/localimages.js:372-382 | Every derivative path is the derivative path of the token at a position it names. |
| Paths.DerivativeListElements | lib/fieldTypes/localimages.js:372-382 | The per-token list holds, at each position, the derivative path of the token at that position. |
| Paths.OriginalIsNotDerivative | lib/fieldTypes/localimages.js:371-382 | For a name without `/`, the stored file `dest/name` is never one of its own derivatives. |
| Paths.NotADerivative | lib/fieldTypes/localimages.js:376-382 | For a name without `/`, one token's derivative path differs from `dest/name`. |
| Paths.Join | lib/fieldTypes/localimages.js:144-148 | Definition of `path.join` without normalisation; its properties are stated by `Paths.JoinTwice` and `Paths.ThumbUrlServesDerivative`. |
| Paths.Base | lib/fieldTypes/localimages.js:147 | The base name holds no `/`. Its properties are stated by `Paths.SuffixAfterLast` and `Paths.BaseOfPlainName`. |
| Paths.Stem | lib/fieldTypes/localimages.js:147 | Definition of `basename(name, extname(name))`; its property is stated by `Paths.StemThenExt`. |
| Paths.DerivativeName | lib/fieldTypes/localimages.js:376-382 | Definition of `<stem>_<token><ext>`; its properties are stated by `Paths.NotADerivative` and `Paths.ThumbUrlServesDerivative`. |
| Paths.DerivativePath | lib/fieldTypes/localimages.js:371-382 | Definition of the path a resize writes, which `removeImage` (lines 236-244) unlinks; its properties are stated by `Paths.DerivativePathsExactly`, `Paths.OriginalIsNotDerivative` and `Paths.NotADerivative`. |
| Paths.DerivativePaths | lib/fieldTypes/localimages.js:371-382 | Definition of the set of derivative paths of a name; its properties are stated by `Paths.DerivativePathsExactly`, `Paths.DerivativePathsCover` and `Paths.TokenOfDerivative`. |
| Paths.DerivativeList | lib/fieldTypes/localimages.js:371-389 | One path per token. Its entries are stated by `Paths.DerivativeListElements` and `Paths.DerivativeListPaths`. |
| Disk.FileSystem.Move | lib/fieldTypes/localimages.js:354-355 | On success the source is gone and the destination exists. On failure the disk is unchanged. |
| Disk.FileSystem.Unlink | lib/fieldTypes/localimages.js:233 | Exactly the given existing path leaves the disk. |
| Disk.FileSystem.WriteDerivative | lib/fieldTypes/localimages.js:375-385 | A resize adds exactly its destination. |
| Disk.DirectChild | lib/fieldTypes/localimages.js:403 | Definition of an entry lying directly in a directory; its property is stated by `Upload.AllDirectChildren`. |
| Disk.EntryCount | lib/fieldTypes/localimages.js:403-405 | Definition of `readdirSync(dir).length`; its properties are stated by `Upload.AllDirectChildren` and `Upload.CollisionAppendsEntryCount`. |
| Disk.FileSystem.ExistsSync | lib/fieldTypes/localimages.js:401 | Definition of `existsSync` as membership in the path set; its uses are stated by `Upload.ResolveSteps`, `LocalImages.UnlinkExisting` and `LocalImages.ImagesRecord.RemoveImage`. |
| Disk.FileSystem.ReadDirCount | lib/fieldTypes/localimages.js:403 | Definition of `readdirSync(dir).length` on the current disk; its use is stated by `Upload.ResolveSteps`. |
| Attachments.DeleteFiles | lib/fieldTypes/localimages.js:200-205 | `delete` removes exactly the stored file when it exists, and nothing otherwise. |
| Attachments.StoredAt | lib/fieldTypes/localimages.js:157-166 | Definition of `path.join(path, filename)`; its properties are stated by `Attachments.DeleteFiles` and `Attachments.RemovedFileDoesNotExist`. |
| Attachments.ResetIsEmpty | lib/fieldTypes/localimages.js:174-181 | `exists` is false after `reset`, whatever the disk holds. |
| Attachments.EmptyPartNeverExists | lib/fieldTypes/localimages.js:157-163 | `exists` is false when the path or the filename is empty. |
| Attachments.RemovedFileDoesNotExist | lib/fieldTypes/localimages.js:157-166 | `exists` consults the disk: a recorded file that is gone does not exist. |
| Attachments.DeleteTwiceIsDeleteOnce | lib/fieldTypes/localimages.js:200-205 | Deleting a second time, after the reset, leaves the disk as one delete did. |
| Hooks.RunChain | lib/fieldTypes/localimages.js:413-416 | The chain completes exactly when every hook passes. Otherwise it aborts at the first failing hook with that hook's message, and every earlier hook passed. |
| Hooks.InvokedUpToAbort | lib/fieldTypes/localimages.js:413-416 | The chain invokes every hook when it completes. It invokes exactly the hooks up to and including the failing one when it aborts. |
| Hooks.FirstFailureStopsSecond | lib/fieldTypes/localimages.js:413-416 | When the first of two hooks fails, the second is never invoked. |
| Upload.NameKeptWithoutCollision | lib/fieldTypes/localimages.js:397-411 | Without a date prefix, a rename or a collision, the uploaded name is kept. |
| Upload.NameCarriesDatePrefix | lib/fieldTypes/localimages.js:337-338 | With a date prefix and no collision, the name is `<date>-<name>`. |
| Upload.RenameAppliedTwice | lib/fieldTypes/localimages.js:349-411 | The `filename` option is applied in `checkExists` and again in `doMove`. |
| Upload.CollisionAppendsEntryCount | lib/fieldTypes/localimages.js:401-407 | Without a `filename` option, a collision makes the name stem, then the number of entries in `dest`, then the extension. For a name without `/`, that differs from the name tried. |
| Upload.AllDirectChildren | lib/fieldTypes/localimages.js:403 | When every path lies directly in the directory, `readdirSync(dir).length` is the number of paths. |
| Upload.CollisionExample | lib/fieldTypes/localimages.js:401-407 | `a.png` uploaded into a directory that holds it among 3 entries becomes `a3.png`. |
| Upload.CollisionIsOneShot | lib/fieldTypes/localimages.js:401-410 | With `d/a.png` and `d/a2.png` on disk, `a.png` resolves to `a2.png`, which already exists: the rule is not applied again. |
| Upload.UploadPipeline | lib/fieldTypes/localimages.js:335-430 | A disallowed type fails first with the type error and changes nothing. A failing `pre.move` hook fails with that hook's index and message and changes nothing. A file is stored exactly when the type is allowed, the `pre.move` chain completes and the move succeeds. A stored file's attachment is `{resolved name, dest, size, type}`; the disk loses the temporary file and gains the stored file and every derivative. A failed move, after the type check and the `pre.move` chain pass, gives the move error with its message and changes nothing. The upload succeeds exactly when the file is stored and the `post.move` chain completes. A stored file whose `post.move` chain aborts fails with that hook's index and message. |
| Upload.StoredFileExists | lib/fieldTypes/localimages.js:354-394 | After a successful move to a non-empty `dest` under a non-empty stored name, `exists` holds for the stored attachment and all its derivatives are on disk. |
| Upload.FailureBeforeMoveChangesNothing | lib/fieldTypes/localimages.js:340-355 | Any failure other than a `post.move` failure leaves the disk unchanged and stores nothing. |
| Upload.ResolveSteps | lib/fieldTypes/localimages.js:397-411 | Reassigning `name` as `checkExists` and `doMove` do gives rename, then the collision rule, then rename again. |
| Upload.Resample | lib/fieldTypes/localimages.js:370-389 | The disk gains exactly the derivative paths of the stored name. |
| Upload.WriteDerivatives | lib/fieldTypes/localimages.js:372-389 | Writing the paths one by one adds exactly those paths. |
| Upload.Perform | lib/fieldTypes/localimages.js:335-430 | Running the steps on the disk gives exactly the verdict, stored attachment and disk that `UploadPipeline` describes. |
| LocalImage.FormatWithoutFormatter | lib/fieldTypes/localimage.js:222-226 | Without a formatter, `format` is `href`, which is the URL of the `thumbnailx160x160` derivative. |
| LocalImage.HrefServesUploadedThumbnail | lib/fieldTypes/localimage.js:246-254 | After an upload under a public directory, the default thumbnail is on disk. Its path with `public/` served as `/` is the stored attachment's `href`. |
| LocalImage.ActionEffect | lib/fieldTypes/localimage.js:423-428 | `delete` resets the field and unlinks the stored file if it exists. `reset` only resets. Any other action changes nothing. |
| LocalImage.ImageRecord.Reset | lib/fieldTypes/localimage.js:168-175 | All four parts of the field are emptied. |
| LocalImage.ImageRecord.Delete | lib/fieldTypes/localimage.js:194-199 | The field is reset and the disk loses exactly the stored file, if it existed. |
| LocalImage.ImageRecord.UploadFile | lib/fieldTypes/localimage.js:297-394 | The verdict and the disk are the pipeline's. The field takes the stored attachment only when `update` holds and the move succeeded; otherwise it is untouched. |
| LocalImage.ImageRecord.HandleRequest | lib/fieldTypes/localimage.js:421-436 | The action is applied first. Then a file of non-zero size is uploaded with `update` on the resulting disk. |
| LocalImage.UploadRequested | lib/fieldTypes/localimage.js:430 | Definition of the non-zero-size upload test; its use is stated by `LocalImage.ImageRecord.HandleRequest`. |
| LocalImage.ImageRecord.Exists | lib/fieldTypes/localimage.js:152-161 | Definition of `exists` on the record's attachment; its properties are stated by `Attachments.EmptyPartNeverExists`, `Attachments.RemovedFileDoesNotExist` and `LocalImage.DeleteRemovesUpload`. |
| LocalImage.DeleteRemovesUpload | lib/fieldTypes/localimage.js:194-199 | Deleting a freshly uploaded image with a non-empty `dest` and stored name removes exactly the file the upload stored. |
| LocalImages.ThumbMatchesRemovedDerivative | lib/fieldTypes/localimages.js:144-153 | An entry's `thumb(token)` is the served form of the path that a removal in `delete` mode unlinks. |
| LocalImages.FirstWithId | lib/fieldTypes/localimages.js:219-226 | The index of the first entry carrying the id, or -1 exactly when no entry carries it. |
| LocalImages.FindById | lib/fieldTypes/localimages.js:219-226 | The lookup loop with its `break` finds the first entry carrying the id, or -1. |
| LocalImages.ResolveTarget | lib/fieldTypes/localimages.js:217-228 | The entry acted on, if any, is always in range. |
| LocalImages.IdMatchWins | lib/fieldTypes/localimages.js:220-224 | The first entry whose `_id` matches is the one removed. |
| LocalImages.PositionalFallback | lib/fieldTypes/localimages.js:227-228 | With no `_id` match, an entry is removed exactly when the id is the decimal rendering of an index in range, and it is that entry. |
| LocalImages.RemovedAt | lib/fieldTypes/localimages.js:252 | `splice(k, 1)` removes exactly that element. The other elements keep their order, and the list as a multiset loses only that entry. |
| LocalImages.RemovalFiles | lib/fieldTypes/localimages.js:230-250 | `delete` mode leaves neither the original nor any derivative, and every other file stays. |
| LocalImages.DeleteUndoesUpload | lib/fieldTypes/localimages.js:230-252 | Removing in `delete` mode an entry an upload just appended restores the list. None of the paths the upload wrote remain. |
| LocalImages.SortByOrder | lib/fieldTypes/localimages.js:464-471 | The result is a permutation of the list, ordered by each entry's position in the directive. |
| LocalImages.OrderKey | lib/fieldTypes/localimages.js:469 | Definition of an entry's directive position; its properties are stated by `LocalImages.SortByOrder`, `LocalImages.UnlistedSortFirst` and `LocalImages.ListedFollowDirective`. |
| LocalImages.InsertSorted | lib/fieldTypes/localimages.js:468-470 | Inserting by directive position keeps a sorted list sorted. |
| LocalImages.UnlistedSortFirst | lib/fieldTypes/localimages.js:468-470 | Entries whose id is not in the directive come before every listed entry. |
| LocalImages.ListedFollowDirective | lib/fieldTypes/localimages.js:468-470 | Listed entries come out in the order the directive lists their ids. |
| LocalImages.ReorderExample | lib/fieldTypes/localimages.js:464-471 | Entries `A, B, C` under the directive `C,A,B` become `C, A, B`. |
| LocalImages.ForIds | lib/fieldTypes/localimages.js:484-486 | One removal per id, in the order of the ids. |
| LocalImages.RenderedSplits | lib/fieldTypes/localimages.js:478-480 | A written group splits at its `:` into the mode and the id list. |
| LocalImages.GroupRoundTrip | lib/fieldTypes/localimages.js:477-487 | A well-formed group is read back as its mode applied to each of its ids, in order. |
| LocalImages.GroupsRoundTrip | lib/fieldTypes/localimages.js:477-487 | Groups read back one after another, in order. |
| LocalImages.ParseActionsRoundTrip | lib/fieldTypes/localimages.js:474-488 | A directive written from well-formed groups parses to those groups' removals, id by id and group by group. |
| LocalImages.IgnoredGroups | lib/fieldTypes/localimages.js:482 | A group with another mode or an empty id list asks for nothing. |
| LocalImages.ModeNamed | lib/fieldTypes/localimages.js:482 | Definition of the `^(remove|delete)$` test; its properties are stated by `LocalImages.GroupRoundTrip` and `LocalImages.IgnoredGroups`. |
| LocalImages.ActionExample | lib/fieldTypes/localimages.js:474-488 | The directive `remove:a,b` and `delete:c`, joined by the group separator, asks to remove `a` and `b`, then delete `c`. |
| LocalImages.RemoveEffectShrinks | lib/fieldTypes/localimages.js:217-256 | A removal takes out one entry exactly when the target resolves. It touches the disk only in `delete` mode, and then only by removing files. |
| LocalImages.ApplyRemovalsShrinks | lib/fieldTypes/localimages.js:474-488 | A sequence of removals leaves a sub-multiset with at most one entry fewer per removal. The disk only loses files. With `remove` alone the disk is unchanged. |
| LocalImages.PipelineConsistent | lib/fieldTypes/localimages.js:413-430 | Only a file that was moved can succeed, and a file that was not moved reports an error. |
| LocalImages.BatchEffects | lib/fieldTypes/localimages.js:335-432 | Definition of the per-file pipeline effects of a batch, one per file. |
| LocalImages.BatchEffectAt | lib/fieldTypes/localimages.js:335-355 | Entry `i` of the effects is file `i`'s pipeline run on the disk that the files before it leave. |
| LocalImages.MovedEntries | lib/fieldTypes/localimages.js:357-392 | Definition of the entries of the stored files; at most one per file. |
| LocalImages.MovedEntriesSplit | lib/fieldTypes/localimages.js:357-392 | One more file adds its entry exactly when its pipeline stored it. |
| LocalImages.AllMovedExactly | lib/fieldTypes/localimages.js:357-392 | Every file has an entry exactly when every file's pipeline stored it. |
| LocalImages.BatchMoved | lib/fieldTypes/localimages.js:357-392 | Definition of the entries a batch's stored files add, in file order; at most one per file. |
| LocalImages.BatchCollects | lib/fieldTypes/localimages.js:357-392 | For any `update`, `fileDatas` gains exactly the attachments of the stored files, in file order. |
| LocalImages.StepAppends | lib/fieldTypes/localimages.js:357-392 | Without `update`, a file whose pipeline stored it appends the entry `{_id, attachment}` to the list and its attachment to `fileDatas`. A file that was not stored changes neither. |
| LocalImages.BatchAppends | lib/fieldTypes/localimages.js:335-432 | Without `update`, the list becomes the old list followed by the entries of exactly the stored files, in file order. `fileDatas` gains exactly their attachments. |
| LocalImages.StepReplaces | lib/fieldTypes/localimages.js:357-392 | With `update`, a file whose pipeline stored it makes its entry the whole list and adds its attachment to `fileDatas`. A file that was not stored changes neither. |
| LocalImages.BatchReplaces | lib/fieldTypes/localimages.js:335-432 | With `update`, the list is unchanged when no file was stored. Otherwise it holds exactly one entry: that of the last stored file. `fileDatas` gains the attachments of every stored file, in file order. |
| LocalImages.StepReports | lib/fieldTypes/localimages.js:392-426 | One file adds at most one attachment to `fileDatas` and at most one callback call. A `callback(null, fileDatas)` carries `total` entries. |
| LocalImages.StepCalls | lib/fieldTypes/localimages.js:413-426 | A failing file gives `callback(err)` with its error. A passing file that brings `fileDatas` to `total` gives `callback(null, fileDatas)`. Any other passing file makes no call. |
| LocalImages.UploadStepRejects | lib/fieldTypes/localimages.js:340-419 | A disallowed type, an aborted `pre.move` chain and a failed move each give `callback(err)` with that error (type, hook index and message, move message). The disk, the list and `fileDatas` are left alone. |
| LocalImages.CallOf | lib/fieldTypes/localimages.js:413-426 | Definition of the call a file with given effects makes; at most one. Its meaning is stated by `LocalImages.StepCalls`. |
| LocalImages.Reports | lib/fieldTypes/localimages.js:413-426 | Definition of the calls of a sequence of files, in file order; at most one per file. Tied to the fold by `LocalImages.BatchCalls`. |
| LocalImages.BatchCalls | lib/fieldTypes/localimages.js:335-432 | A batch makes exactly the calls its files' effects give, in file order. Each passing file that completes `fileDatas` carries the attachments of the files stored so far. |
| LocalImages.FailedErrors | lib/fieldTypes/localimages.js:413-426 | Definition of the errors of the failing files, in file order; at most one per file. Tied to the fold by `LocalImages.BatchErrors`. |
| LocalImages.Failures | lib/fieldTypes/localimages.js:413-426 | Definition of the errors carried by `callback(err)` calls, in call order. Tied to the fold by `LocalImages.BatchErrors`. |
| LocalImages.BatchErrors | lib/fieldTypes/localimages.js:335-432 | Every failing file gives the callback its error, whether it fails the type check, a `pre.move` hook, the move or a `post.move` hook. The errors the callback gets are exactly these, in file order. |
| LocalImages.BatchReportsTotal | lib/fieldTypes/localimages.js:392-426 | `fileDatas` and the calls only grow, by at most one per file. Every `callback(null, fileDatas)` carries `total` entries and is a prefix of the final `fileDatas`. |
| LocalImages.AllStoredOnlyWhenAllMoved | lib/fieldTypes/localimages.js:357-426 | For a whole batch, `callback(null, fileDatas)` happens only when every file's pipeline stored its file. It carries the attachments of all files, in file order. |
| LocalImages.StepPostMoveFailure | lib/fieldTypes/localimages.js:392-423 | A file whose `post.move` hooks fail is still added to `fileDatas`, and the callback gets its error. |
| LocalImages.StepCompletes | lib/fieldTypes/localimages.js:420-426 | A file that goes through and brings `fileDatas` to `total` ends with `callback(null, fileDatas)`. |
| LocalImages.LastFileReportsAll | lib/fieldTypes/localimages.js:420-426 | When every earlier file was moved and the last one goes through, the last call carries the full `fileDatas`. |
| LocalImages.ErrorThenAllStored | lib/fieldTypes/localimages.js:392-426 | A `post.move` failure followed by a successful last file gives two callback calls: the error, then the full `fileDatas`. |
| LocalImages.UnlinkDerivatives | lib/fieldTypes/localimages.js:236-248 | The disk loses exactly the derivative paths of the name. |
| LocalImages.UnlinkExisting | lib/fieldTypes/localimages.js:237-248 | Unlinking each path that exists removes exactly those paths. |
| LocalImages.ImagesRecord.RemoveImage | lib/fieldTypes/localimages.js:217-256 | The disk and the list become exactly what the removal effect describes. |
| LocalImages.ImagesRecord.ApplyActions | lib/fieldTypes/localimages.js:474-488 | The removals of the parsed directive are applied one by one, in order. |
| LocalImages.ImagesRecord.UploadFiles | lib/fieldTypes/localimages.js:330-435 | The disk, the list and the callback calls are those of the fold over the files, with `total` the number of files. |
| LocalImages.ImagesRecord.HandleRequest | lib/fieldTypes/localimages.js:461-497 | It reorders when there is an order directive, then applies the removals when there is an action. Then it uploads in append mode when at least one file came. |
| LocalImages.ImagesRecord.Reorder | lib/fieldTypes/localimages.js:464-471 | The list becomes its directive-ordered permutation. |
| Paths.ThumbUrl | lib/fieldTypes/localimages.js:144-149 | Definition of the `src` URL; its properties are stated by `Paths.ThumbUrlServesDerivative` and `Paths.DefaultDestinationUrl`. |
| Paths.ParseToken | lib/fieldTypes/localimages.js:373 | Definition of the resampler's token reading; its properties are stated by `Paths.ParseTokenRoundTrip` and `Paths.DefaultTokenSpec`. |
| Attachments.Exists | lib/fieldTypes/localimages.js:157-166 | Definition of `exists`; its properties are stated by `Attachments.EmptyPartNeverExists`, `Attachments.RemovedFileDoesNotExist` and `Attachments.ResetIsEmpty`. |
| Hooks.Invoked | lib/fieldTypes/localimages.js:413-416 | Definition of how many hooks a chain calls; its properties are stated by `Hooks.InvokedUpToAbort` and `Hooks.FirstFailureStopsSecond`. |
| Upload.TypeAllowed | lib/fieldTypes/localimages.js:340-342 | Definition of the allow-list check; its effect is stated by `Upload.UploadPipeline`. |
| Upload.PrefixedName | lib/fieldTypes/localimages.js:337-338 | Definition of the date-prefixed name; its property is stated by `Upload.NameCarriesDatePrefix`. |
| Upload.Renamed | lib/fieldTypes/localimages.js:350-352 | Definition of the `filename` option's rename; its properties are stated by `Upload.RenameAppliedTwice` and `Upload.NameKeptWithoutCollision`. |
| Upload.Disambiguated | lib/fieldTypes/localimages.js:401-407 | Definition of the collision rule; its properties are stated by `Upload.CollisionAppendsEntryCount`, `Upload.CollisionExample` and `Upload.CollisionIsOneShot`. |
| Upload.ResolveName | lib/fieldTypes/localimages.js:349-411 | Definition of the name a file is stored under; its properties are stated by `Upload.ResolveSteps`, `Upload.NameKeptWithoutCollision` and `Upload.RenameAppliedTwice`. |
| LocalImage.Thumb | lib/fieldTypes/localimage.js:139-148 | Definition of `thumb`; its link to the resampled files is stated by `Paths.ThumbUrlServesDerivative`. |
| LocalImage.Href | lib/fieldTypes/localimage.js:246-254 | Definition of `href`; its properties are stated by `LocalImage.HrefServesUploadedThumbnail` and `LocalImage.FormatWithoutFormatter`. |
| LocalImage.Format | lib/fieldTypes/localimage.js:222-226 | Definition of `format`; its property is stated by `LocalImage.FormatWithoutFormatter`. |
| LocalImages.Thumb | lib/fieldTypes/localimages.js:144-153 | Definition of an entry's `thumb`; its property is stated by `LocalImages.ThumbMatchesRemovedDerivative`. |
| LocalImages.Format | lib/fieldTypes/localimages.js:269-277 | Definition of the list field's `format`; its property is stated by `Paths.DefaultDestinationUrl`. |
| LocalImages.RemoveEffect | lib/fieldTypes/localimages.js:217-256 | Definition of a removal's effect; its properties are stated by `LocalImages.RemoveEffectShrinks`, `LocalImages.IdMatchWins`, `LocalImages.PositionalFallback`, `LocalImages.RemovalFiles` and `LocalImages.DeleteUndoesUpload`. |
| LocalImages.GroupRemovals | lib/fieldTypes/localimages.js:478-486 | Definition of one action group's removals; its properties are stated by `LocalImages.GroupRoundTrip` and `LocalImages.IgnoredGroups`. |
| LocalImages.ParseActions | lib/fieldTypes/localimages.js:474-488 | Definition of the action directive's reading; its properties are stated by `LocalImages.ParseActionsRoundTrip` and `LocalImages.ActionExample`. |
| LocalImages.ApplyRemovals | lib/fieldTypes/localimages.js:474-488 | Definition of applying removals in order; its properties are stated by `LocalImages.ApplyRemovalsShrinks` and `LocalImages.ImagesRecord.ApplyActions`. |
| LocalImages.StepWith | lib/fieldTypes/localimages.js:357-426 | Definition of one file's contribution to the batch once its pipeline has run; its properties are stated by `LocalImages.StepAppends`, `LocalImages.StepReplaces`, `LocalImages.StepReports`, `LocalImages.StepCalls`, `LocalImages.StepPostMoveFailure` and `LocalImages.StepCompletes`. |
| LocalImages.UploadStep | lib/fieldTypes/localimages.js:335-432 | Definition of one file's step, its pipeline followed by `StepWith`; its error reports are stated by `LocalImages.UploadStepRejects`, the rest by the `Step` lemmas. |
| LocalImages.Batch | lib/fieldTypes/localimages.js:335-432 | Definition of the fold over the files; its properties are stated by `LocalImages.BatchAppends`, `LocalImages.BatchReplaces`, `LocalImages.BatchCollects`, `LocalImages.BatchCalls`, `LocalImages.BatchErrors`, `LocalImages.BatchReportsTotal`, `LocalImages.AllStoredOnlyWhenAllMoved` and `LocalImages.ErrorThenAllStored`. |

## Left out

- The real filesystem is modelled as a path set.
  - Directory creation, permissions and file contents are not modelled.
  - A directory is an entry only when its own path is in the set. Resampling adds paths under `dest/_resampled` but never `dest/_resampled` itself, so the collision rule's entry count includes that directory only when the starting disk already holds it.
  - `path.join` is a plain `/`-join without normalisation of `.` or `..`, doubled or trailing separators.
  - `basename`/`extname` split at the last `/` and at the last `.` of the last segment, with a leading dot not counting. Node's other edge cases, such as trailing separators, are not modelled.
- The `easyimage` resize calls are foreign and asynchronous. Each is assumed to write its destination. Their error callback, which can fire after success was reported, is not modelled.
- `moment` date formatting is not modelled. The formatted date is a parameter (`dateText`).
- Mongoose and the stubs around the fields are not modelled:
  - schema and virtual registration, `underscoreMethod`/`bindUnderscoreMethods`, the `Field` superclass;
  - `isModified`, `validateInput` and `updateItem`;
  - `hasFormatter` except as the optional formatter;
  - `item.save` and the callback argument of `removeImage`.
- The hooks' own effects on the record or the file are not modelled. A hook is an identity, and what it reports is an outcome passed in.
- The `filename` option receives the record and the name. Here it is a function of the name alone.
- `uploadFiles` starts every file's pipeline without waiting for the others. The model runs the files one after another, so it does not capture interleavings. With an empty `pre.move` queue, every file's name is resolved before any move completes, so two files with the same name resolve to the same name in the source. Under the fold, the second is resolved against the disk the first left and gets a disambiguated name.
- The JavaScript argument shuffling (`update` passed as the callback) is not modelled. `update` is an explicit boolean and the callback's calls are returned.
- With `update`, `uploadFiles` sets the list field to a single attachment. The model takes that to be a one-entry list; the store's casting is not modelled.
- `removeImage` on string ids is modelled for `_id` matches and canonical index strings. Array property names such as `length` or the method names are not modelled. A numeric id is taken to be an integer.
- LocalImages.SortByOrder: a stable insertion sort. The order comparator never returns 0, so the engine's placement of entries with equal keys (all unlisted entries, say) is not modelled; the contract states the permutation and the directive order only.
- The list field's `exists`/`reset`/`delete` read `path` and `filename` off the field itself. They are modelled once, over one attachment (`Attachments`).
- LocalImage.Thumb: the single-image field registers `thumb` on the record's schema, so its `src` reads `path` and `filename` at the top level of the record, not under the field's path. The model reads them off the field's attachment, as `href` does.
- LocalImages.Format: without a formatter, `format` reads `path` and `filename` off the record itself, not off one of the list's entries. The model applies it to one attachment.
- LocalImages.Batch: `uploadFiles` formats the date prefix once per file, so files can get different dates. The model uses one `dateText` for the whole batch.
- An upload part that is not an array, and a file size that is not a number, are not modelled.
- The thrown errors' text, the list key and the path are not modelled. Only the kind of error is kept. One kind differs: `pre` and `post` with an event named after an inherited object property, such as `toString` or `constructor`, pass the `!this._pre[event]` test and then throw a TypeError from `.push`. The model gives the unsupported-event error. In both, the queue is unchanged.
