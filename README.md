# Tinier: a verified model of the compression core

Tinier is an Android app that compresses photos in bulk. The user picks photos
on a dashboard, chooses quality, size limit, export format and a name suffix,
and a foreground service resolves each photo to a file path, compresses it and
writes the result to public storage while publishing counters and a status.

This project models the non-UI core of the app in Dafny:

- `Photos` (`photos.dfy`): the `Photo(uri, isSelected)` record. Equality covers
  both fields, so a set may hold the same uri twice, once selected and once not.
- `ViewModel` (`main_view_model.dfy`): the dashboard state holder
  `MainViewModel`. It holds the photo set, the action-mode flag and the selected
  counter, and offers adding with the MIME filter, toggling action mode,
  toggling one photo, removing the selected photos and selecting all. Every
  operation keeps the counter equal to the number of selected photos. It also
  has the part of `compress` that turns the format name and the `{unit: amount}`
  size map into a compressor configuration. The content resolver's `getType`
  is a function parameter.
- `LongParsing` (`long_parsing.dfy`): Kotlin's `String.toLong()` and the
  wrap-around of 64-bit `Long` multiplication that the size conversion relies on.
- `ImageCompression` (`image_compressor.dfy`): the `ImageCompressor` class with
  its four configuration fields and `setConfig`. Its `CompressImage` returns
  the calls that `compressImage` makes: creating the output directory, calling
  the compression library with the constraints chosen, and saving through
  MediaStore. It covers the extension table, `File.nameWithoutExtension` and
  the output name `nameWithoutExtension + trailingName + extension`.
- `CompressorService` (`compressor_service.dfy`): the compression service as a
  sequential state machine driven by the events Start, PathResolved,
  CompressNext, Finish and Cancel. The state is the pure `Job` datatype and the
  transition function is `Step`. The class `ImageCompressorService` updates the
  same state in place, and each of its methods is proved equal to one event (or,
  for the consumer loop, a run of events). The channel is a FIFO queue with a
  closed flag.
- `ServiceBinder` (`service_binder.dfy`): the binding helper, with the `mBound`
  flag, the connected service, and a record of the bind and unbind calls made.
- `Helper` (`helper.dfy`): `getActivity` over an inductive `Context` datatype.

Some consequences of the code as written, each proved below:

- The channel is closed only when the resolved count equals the size of the
  photo set. A failed path resolution never increases that count, so after any
  failure the channel stays open. The consumer loop then waits for ever, and
  without a cancellation the status stays "Compressing"
  (`FailedResolutionNeverFinishes`).
- When every path resolves, the channel closes, whatever the order of
  callbacks and consumer turns; draining it then compresses every photo and
  ends in "Done" (`AllResolvedFinishes`).
- A job over an empty photo set never finishes either: the close test runs
  only inside a completion callback, and an empty set gets no callbacks, so
  its channel never closes (`EmptyJobNeverFinishes`).
- `cancelJob` cancels the service's supervisor job, which is never replaced. So
  everything later launched in that scope does not run: further `compress`
  calls and completion callbacks do nothing, and the status stays "Stopped"
  (`CancelIsFinal`). This includes the cache deletion that `cancelJob` itself
  launches, so the model records no clean-up on cancellation.

## Model

| member | source | states |
|---|---|---|
| `Helper.GetActivity` | app/src/main/java/com/durvank883/tinier/util/Helper.kt:13-17 | The result is absent exactly when no ComponentActivity occurs along the wrapper chain; a present result is an activity on that chain. |
| `Helper.FoundIsFirstActivity` | app/src/main/java/com/durvank883/tinier/util/Helper.kt:13-17 | The activity found is the first one along the chain: the activity test comes before the wrapper test. |
| `Helper.WrappedActivityFound` | app/src/main/java/com/durvank883/tinier/util/Helper.kt:14-15 | An activity returns itself, and any number of wrappers around it defer to it. |
| `Helper.WrappedOtherNotFound` | app/src/main/java/com/durvank883/tinier/util/Helper.kt:15-16 | Any other context gives null, however many wrappers surround it. |
| `LongParsing.Wrap64` | app/src/main/java/com/durvank883/tinier/viewmodel/MainViewModel.kt:125-129 | The byte count is a Long congruent to the exact product modulo 2^64, and equal to it when it fits. |
| `LongParsing.ParseLong` | app/src/main/java/com/durvank883/tinier/viewmodel/MainViewModel.kt:126-128 | A parsed value is a Long and negative only after a leading "-". Digit text, leading zeros included, parses to its decimal value, and so does digit text after one "+" or "-" sign (negated for "-"), whenever that value fits in a Long; otherwise it fails. |
| `LongParsing.ParseShow` | app/src/main/java/com/durvank883/tinier/viewmodel/MainViewModel.kt:126-128 | `toLong` reads back the decimal text of every Long. |
| `LongParsing.NonDigitRejected` | app/src/main/java/com/durvank883/tinier/viewmodel/MainViewModel.kt:126-128 | A non-digit anywhere but at a leading sign makes `toLong` fail. |
| `ViewModel.ImageUris` | app/src/main/java/com/durvank883/tinier/viewmodel/MainViewModel.kt:57-60 | The filter keeps exactly the uris whose type is known and starts with "image". |
| `ViewModel.MainViewModel.constructor` | app/src/main/java/com/durvank883/tinier/viewmodel/MainViewModel.kt:35-45 | Starts with no photos, action mode off and counter 0. |
| `ViewModel.MainViewModel.SetPhotos` | app/src/main/java/com/durvank883/tinier/viewmodel/MainViewModel.kt:53-60 | Nothing is removed; the new set is the old set plus `Photo(u, false)` for each new uri of image type; the counter stays equal to the number of selected photos. |
| `ViewModel.AllMarked` | app/src/main/java/com/durvank883/tinier/viewmodel/MainViewModel.kt:70-72 | Marking every photo yields one photo per uri of the set, all with the given flag, and never a larger set. |
| `ViewModel.MainViewModel.ToggleActionMode` | app/src/main/java/com/durvank883/tinier/viewmodel/MainViewModel.kt:66-74 | The flag flips; when it becomes false every photo is unselected and the counter is 0; otherwise nothing else changes. |
| `ViewModel.Toggled` | app/src/main/java/com/durvank883/tinier/viewmodel/MainViewModel.kt:80-87 | A photo with the toggled uri is present exactly when its opposite was; photos with other uris are unchanged. |
| `ViewModel.ToggleTwice` | app/src/main/java/com/durvank883/tinier/viewmodel/MainViewModel.kt:80-87 | Toggling the same uri twice restores the set. |
| `ViewModel.ToggleKeepsUris` | app/src/main/java/com/durvank883/tinier/viewmodel/MainViewModel.kt:80-87 | Toggling neither adds nor loses a uri. |
| `ViewModel.MainViewModel.TogglePhotoSelection` | app/src/main/java/com/durvank883/tinier/viewmodel/MainViewModel.kt:79-89 | The set becomes the toggled set and the counter equals the number of selected photos in it. |
| `ViewModel.UnmarkUnselected` | app/src/main/java/com/durvank883/tinier/viewmodel/MainViewModel.kt:93-95 | Leaving action mode after removing the selected photos changes no photo. |
| `ViewModel.MainViewModel.RemoveSelectedPhotos` | app/src/main/java/com/durvank883/tinier/viewmodel/MainViewModel.kt:92-96 | Exactly the unselected photos remain, the counter is 0, and action mode is toggled. |
| `ViewModel.MainViewModel.SelectAllPhotos` | app/src/main/java/com/durvank883/tinier/viewmodel/MainViewModel.kt:98-107 | If every photo is already selected (the empty set included) only action mode toggles; otherwise all photos become selected, action mode is kept and the counter is the set size. |
| `ViewModel.FormatFromName` | app/src/main/java/com/durvank883/tinier/viewmodel/MainViewModel.kt:117-122 | "png", "jpg" and "webp" name PNG, JPEG and WEBP, each in both directions; every other name gives no format. |
| `ViewModel.ExtensionOfNamedFormat` | app/src/main/java/com/durvank883/tinier/viewmodel/MainViewModel.kt:117-122 | A format chosen by name is written with that name as its extension; any other name ends up as ".jpg". |
| `ViewModel.MaxSizeBytes` | app/src/main/java/com/durvank883/tinier/viewmodel/MainViewModel.kt:124-129 | Succeeds exactly when the map has a first entry whose amount is a Long; the result is 1024*1024*n for "MB" and 1024*n for any other unit, wrapped to a Long; an empty map is an error. |
| `ViewModel.SizeOfShownAmount` | app/src/main/java/com/durvank883/tinier/viewmodel/MainViewModel.kt:124-129 | The decimal text of n with unit "MB" gives exactly 1048576*n bytes, and with any other unit 1024*n, when the product fits in a Long. |
| `ViewModel.RequestedConfig` | app/src/main/java/com/durvank883/tinier/viewmodel/MainViewModel.kt:117-136 | The configuration passes quality and trailing name through unchanged, with the format named and the size converted; it fails exactly when the size does. |
| `ViewModel.MainViewModel.Compress` | app/src/main/java/com/durvank883/tinier/viewmodel/MainViewModel.kt:117-136 | On success the compressor holds the requested configuration; on a size error the compressor is untouched. |
| `ImageCompression.ImageCompressor.constructor` | app/src/main/java/com/durvank883/tinier/util/ImageCompressor.kt:32-35 | Initial configuration: quality 80, JPEG, size 0, "_compressed". |
| `ImageCompression.ImageCompressor.SetConfig` | app/src/main/java/com/durvank883/tinier/util/ImageCompressor.kt:37-49 | Overwrites exactly the four fields with its arguments (defaults equal the initial values) and returns the same instance. |
| `ImageCompression.Extension` | app/src/main/java/com/durvank883/tinier/util/ImageCompressor.kt:99-104 | ".png" exactly for PNG, ".webp" exactly for WEBP, ".jpg" for JPEG, any other format and none. |
| `ImageCompression.FileName` | app/src/main/java/com/durvank883/tinier/util/ImageCompressor.kt:97 | The file name of a path never contains a separator. |
| `ImageCompression.FileNameIsLastSegment` | app/src/main/java/com/durvank883/tinier/util/ImageCompressor.kt:97 | The file name is the last segment of the path with trailing separators dropped: a suffix of it preceded by a separator or by nothing. |
| `ImageCompression.NameWithoutExtension` | app/src/main/java/com/durvank883/tinier/util/ImageCompressor.kt:118 | The name without extension is a prefix of the file name and never contains a separator. |
| `ImageCompression.OutputName` | app/src/main/java/com/durvank883/tinier/util/ImageCompressor.kt:118 | The output name contains no separator when the trailing name has none, so it names a file directly inside the output directory. |
| `ImageCompression.OutputNameOf` | app/src/main/java/com/durvank883/tinier/util/ImageCompressor.kt:118 | The output name of `dir/base.ext` is `base`, then the trailing name, then the extension of the format. |
| `ImageCompression.FileNameOfChild` | app/src/main/java/com/durvank883/tinier/util/ImageCompressor.kt:97 | The file name of `dir/name` is `name` when `name` has no separator. |
| `ImageCompression.NameWithoutExtensionOf` | app/src/main/java/com/durvank883/tinier/util/ImageCompressor.kt:118 | The name without extension of `dir/base.ext` is `base`, dots inside `base` included. |
| `ImageCompression.NameWithoutExtensionOfPlain` | app/src/main/java/com/durvank883/tinier/util/ImageCompressor.kt:118 | A file name without a dot is kept whole. |
| `ImageCompression.Constraints` | app/src/main/java/com/durvank883/tinier/util/ImageCompressor.kt:109-125 | Quality is applied always and first; the format only when it is set; the destination only below SDK Q; the size only when it is not 0. |
| `ImageCompression.ImageCompressor.CompressImage` | app/src/main/java/com/durvank883/tinier/util/ImageCompressor.kt:85-133 | A missing output directory is created first; a path that is null or only whitespace (`IsNullOrBlank`, with Kotlin's whitespace set) causes no compression and no save; otherwise one compression with the configured constraints, followed from SDK Q on by one MediaStore save under the same output name used as destination below Q. Exactly one route is taken: the destination is among the constraints exactly below Q, and the save is among the calls exactly from Q on. |
| `CompressorService.StartEstablishesInv` | app/src/main/java/com/durvank883/tinier/service/ImageCompressorService.kt:82-90 | Starting from a state whose channel is closed or empty, and not cancelled, gives a job satisfying the job invariant (compressed plus queued equals resolved, resolved at most the number to compress, at most the set size, closed only when all photos resolved) with exactly one callback pending per photo. |
| `CompressorService.StepPreservesInv` | app/src/main/java/com/durvank883/tinier/service/ImageCompressorService.kt:142-155 | Every event but a new start keeps the job invariant; each callback uses one pending callback; only callbacks close the channel, and after a callback it is closed exactly when every photo has resolved. |
| `CompressorService.RunPreservesInv` | app/src/main/java/com/durvank883/tinier/service/ImageCompressorService.kt:142-155 | Any run of events without a new start and with no more callbacks than are pending keeps the job invariant and the photo set, never raises the number to compress, and leaves the channel's closed flag alone when it holds no callback. |
| `CompressorService.StartJob` | app/src/main/java/com/durvank883/tinier/service/ImageCompressorService.kt:80-102 | A start outside a cancelled service stores the photos, resets resolved and compressed, sets the number to compress to the set size, passes through "Starting" to "Compressing", and leaves an open channel that keeps only what an unclosed channel held; it compresses nothing and clears nothing. In a cancelled service it does nothing. |
| `CompressorService.ResolvePath` | app/src/main/java/com/durvank883/tinier/service/ImageCompressorService.kt:135-158 | A success counts one resolved path and queues it unless the channel is closed; a failure lowers the number to compress; afterwards the channel is closed exactly when it was already or every photo has resolved. Status, photos and the compressor are untouched; a cancelled service ignores the callback. |
| `CompressorService.CompressOne` | app/src/main/java/com/durvank883/tinier/service/ImageCompressorService.kt:103-105 | A consumer turn moves at most one path from the head of the queue to the compressor and counts it; calls plus queue are unchanged and the calls only grow. |
| `CompressorService.FinishJob` | app/src/main/java/com/durvank883/tinier/service/ImageCompressorService.kt:107-111 | The loop ends in "Done" exactly when the job was running with its channel closed and drained (or was already done); the cache is cleared once exactly when the status changes. |
| `CompressorService.CancelJob` | app/src/main/java/com/durvank883/tinier/service/ImageCompressorService.kt:114-121 | Cancellation sets "Stopped" and the cancelled flag and leaves the compressor, the queue and the cache clean-up count as they were. |
| `CompressorService.Step` | app/src/main/java/com/durvank883/tinier/service/ImageCompressorService.kt:80-158 | After cancellation only a further cancel has any effect; without a new start the photo set is kept and the compressor's calls only grow; at most one clean-up per event; only a cancel sets the cancelled flag. |
| `CompressorService.NoDoneAfterFailure` | app/src/main/java/com/durvank883/tinier/service/ImageCompressorService.kt:147-155 | After a failed resolution the channel stays open and the job never reaches "Done". |
| `CompressorService.FailedResolutionNeverFinishes` | app/src/main/java/com/durvank883/tinier/service/ImageCompressorService.kt:143-155 | A job in which any resolution fails never reaches "Done"; without a cancellation it stays "Compressing" with its channel open. |
| `CompressorService.EmptyJobNeverFinishes` | app/src/main/java/com/durvank883/tinier/service/ImageCompressorService.kt:152-155 | A job over an empty photo set never closes its channel and never reaches "Done"; without a cancellation it stays "Compressing". |
| `CompressorService.DoneMeansAllCompressed` | app/src/main/java/com/durvank883/tinier/service/ImageCompressorService.kt:103-111 | "Done" is reached only with the channel closed and empty, as many compressions as photos, and the number to compress still equal to the set size, so no resolution failed. |
| `CompressorService.StepIsFifo` | app/src/main/java/com/durvank883/tinier/service/ImageCompressorService.kt:103-106 | One event either moves the oldest queued path to the compressor or appends the accepted path to the queue; the compressor's calls only grow. |
| `CompressorService.ChannelIsFifo` | app/src/main/java/com/durvank883/tinier/service/ImageCompressorService.kt:103-106 | Along any run without a new start, the compressor receives the paths already queued and then those the channel accepted, each once and in order; its earlier calls stay a prefix of its later ones, and what it has not received yet is still queued. |
| `CompressorService.NormalJob` | app/src/main/java/com/durvank883/tinier/service/ImageCompressorService.kt:80-111 | When the paths resolve and are compressed one at a time, the status goes "Starting", "Compressing", "Cleaning Up", "Done", each path is compressed once in order, and the cache is cleared once. |
| `CompressorService.SuccessfulRun` | app/src/main/java/com/durvank883/tinier/service/ImageCompressorService.kt:142-155 | In a run with no cancellation and only successful callbacks, each callback counts one resolved path, the number to compress is kept, and once a callback has come the channel is closed exactly when every photo has resolved. |
| `CompressorService.AllResolvedFinishes` | app/src/main/java/com/durvank883/tinier/service/ImageCompressorService.kt:80-111 | Whatever the order of callbacks and consumer turns, a job whose paths all resolve closes its channel; draining it then leaves the queue empty, compresses every queued path in order, one compression per photo in all, and reaches "Done". |
| `CompressorService.DrainRun` | app/src/main/java/com/durvank883/tinier/service/ImageCompressorService.kt:103-106 | The first n turns of a running consumer compress the first n queued paths in order and count each one. |
| `CompressorService.CancelledStaysStopped` | app/src/main/java/com/durvank883/tinier/service/ImageCompressorService.kt:114-121 | After cancellation no event changes counters, channel or calls, and the status stays "Stopped". |
| `CompressorService.CancelIsFinal` | app/src/main/java/com/durvank883/tinier/service/ImageCompressorService.kt:114-116 | Cancelling sets "Stopped" whatever the previous status, and nothing afterwards compresses or leaves "Stopped". |
| `CompressorService.ImageCompressorService.constructor` | app/src/main/java/com/durvank883/tinier/service/ImageCompressorService.kt:41-56 | Starts "Not Started" with zero counters, an empty open channel and an empty set. |
| `CompressorService.ImageCompressorService.Compress` | app/src/main/java/com/durvank883/tinier/service/ImageCompressorService.kt:80-102 | The in-place update equals the Start event. |
| `CompressorService.ImageCompressorService.OnPathResolved` | app/src/main/java/com/durvank883/tinier/service/ImageCompressorService.kt:135-158 | The in-place update equals the PathResolved event. |
| `CompressorService.ImageCompressorService.ConsumeChannel` | app/src/main/java/com/durvank883/tinier/service/ImageCompressorService.kt:102-111 | The loop's effect equals one CompressNext per queued path followed by Finish. |
| `CompressorService.ImageCompressorService.CancelJob` | app/src/main/java/com/durvank883/tinier/service/ImageCompressorService.kt:114-121 | The in-place update equals the Cancel event. |
| `ServiceBinder.UnbindsMatchBinds` | app/src/main/java/com/durvank883/tinier/service/ImageCompressorServiceBinder.kt:54-59 | Every unbind is matched by an earlier successful bind, and one more bind is unmatched while bound. |
| `ServiceBinder.ImageCompressorServiceBinder.constructor` | app/src/main/java/com/durvank883/tinier/service/ImageCompressorServiceBinder.kt:19-20 | Starts with no service and not bound. |
| `ServiceBinder.ImageCompressorServiceBinder.OnServiceConnected` | app/src/main/java/com/durvank883/tinier/service/ImageCompressorServiceBinder.kt:23-27 | Connecting stores the service. |
| `ServiceBinder.ImageCompressorServiceBinder.OnServiceDisconnected` | app/src/main/java/com/durvank883/tinier/service/ImageCompressorServiceBinder.kt:29-32 | Disconnecting resets the service to null. |
| `ServiceBinder.ImageCompressorServiceBinder.CancelJob` | app/src/main/java/com/durvank883/tinier/service/ImageCompressorServiceBinder.kt:35 | Forwards cancellation to a connected service; without one nothing happens. |
| `ServiceBinder.ImageCompressorServiceBinder.DoBindService` | app/src/main/java/com/durvank883/tinier/service/ImageCompressorServiceBinder.kt:37-52 | A successful bind sets the flag and returns true; a failed one leaves the flag and returns its old value. |
| `ServiceBinder.ImageCompressorServiceBinder.DoUnbindService` | app/src/main/java/com/durvank883/tinier/service/ImageCompressorServiceBinder.kt:54-62 | Unbinds only when bound, leaves the flag false and returns false. |

## Left out

- Compose screens, theming, navigation, notifications, settings storage and cache clearing in the settings screen: user interface and platform I/O.
- `Helper.gesturesDisabled`: a touch-input modifier that loops over UI events for ever.
- The rest of `MainViewModel.compress` (one path request per photo, then compressing whatever its own channel delivers) and its resolver callback: this channel is never closed. The service's pipeline, modelled above, is the one the screens drive.
- Path resolution, the compression library, the MediaStore insert and stream write, `mkdirs` and `deleteRecursively`: foreign calls. They appear only as recorded calls (`Call`, `compressCalls`, `cacheClears`) or as the PathResolved events. Which photo a callback belongs to is not tracked, and the one path request per photo made on start is not recorded.
- The MIME type passed to `saveImageToStorage`: it depends on the extension of the file the library returns, which is outside the model.
- Coroutines, dispatchers and the rendezvous channel: the model takes one ordered sequence of events with a single consumer. A channel still open at a new start is reused with whatever it holds. A closed channel is replaced by an empty one, and paths a replaced channel still held are dropped.
- `CompressorService.ResolvePath`: a send on a closed channel throws in the service. The callback's coroutine then fails before its close check and the exception goes to the uncaught-exception handler. The model drops the path and goes on instead.
- `CompressorService.CompressOne`: a compression that throws ends the consumer loop before "Cleaning Up", and the job never finishes. The model treats every compression as succeeding.
- `ImageCompressorService.setCompressConfig`: it only forwards to `setConfig`, which is modelled.
- Kotlin `Int` overflow of the counters and of `quality`: the counters are bounded by the number of photos; `Int` and `Long` values are unbounded integers except in the size conversion, where the wrap-around is written out.
- `LongParsing.ParseLong`: reads ASCII digits only, while `toLong` also accepts other Unicode decimal digits.
- `Helper.GetActivity`: does not model a wrapper whose base context is null (the call throws) or a cyclic chain of base contexts.
- The progress percentage computed on the progress screen: UI.
