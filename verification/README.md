# Verified model of the USB monitor

USB Monitor watches USB devices behind switchable hub ports, switches ports on and off,
and answers requests over HTTP. This project models the parts of it whose correctness is
not visible from one function, and proves what they promise.

**The request parser** (`src/http_parser.c`). `HttpStep` is the byte machine as functions:
`Micro` is one pass through the switch, `React` a byte with all jumps back to it, `Feed`
adds the limit on header bytes, and `Run` folds `Feed` over any input and collects events,
one for every data byte. `HttpExecute.HttpParser` is the parser object with its real fields,
buffer-local marks, bulk skipping and re-execution, proved to be that fold. On it rest
segmentation invariance, the state invariant, the method table, the header matchers, exact
numbers, both kinds of bodies, the chunked round trip, and over all of them the round trip
of whole requests, with continued header lines and trailers, and of connections
(`HttpRequest`, `HttpConnection`). `HttpTargets` and `HttpWords` say by byte codes, for all
256 bytes, which targets, names, versions and values are taken and what becomes of all
others. `HttpRecycle` and `HttpReuse` say exactly when a parser that has finished a request
is as good as a new one. The configuration is the one the program builds: request parser,
strict mode, callbacks that return 0 and never pause.

**The URL splitter** (same file). `HttpUrl` is the two-level scan as functions,
`HttpUrlParser.UrlFields` the structure that the loops fill in, `HttpUrlBuild` the round
trip, `HttpHosts` and `HttpUrlLanguage` the exact language of host parts and of URLs.

**GPIO probing** (`src/gpio_handler.c`). Pins are powered one at a time; a device that shows
up on a path of the wrong port makes two ports exchange their paths. `GpioModel` has every
event as a function on the list of ports, `GpioProbe` the protocol invariant and its end,
`GpioWiring` the theorem that the true wiring is found, `GpioEffects` what each event does
to power, timers, modes and devices, `GpioAfter` the time after probing, when ports are
pinged, restarted and switched by clients, `GpioHandler` and `GpioRuns` the handler on port
objects, `GpioLimits` and `GpioFaults` the inputs and the exact conditions under which
things go wrong. The events are everything that touches the timeout list or the power of a
GPIO port.

**The Lanner MCU** (`src/lanner_handler.c`). Requests are batched in a mask and applied in
one locked transaction with partial writes and retransmissions. `LannerModel` has the
handler and the MCU as a transition system, `LannerProof` its invariant, `LannerOutcome` the
theorems about runs, `LannerEffects` what each event does, `LannerHandler` the functions on
the shared structure, `LannerFraming` the cutting of the input into lines, `LannerText` what
the lines mean.

**Timer lists** (`src/backend_event_loop.c`, `src/usb_monitor_callbacks.c`,
`src/usb_monitor_lists.c`). `Lists` is the doubly linked list of `sys/queue.h`, `Timers` the
timer queue that is walked while callbacks insert into it, `PortTimeouts` the sweep over
ports.

## What the proofs show about the code

- Requests written in the usual form, one after the other on one connection, are reported
  exactly as they were written, in whatever pieces they arrive (`HttpConnection.Receive`).
- Any input may arrive in any pieces: parser fields, number of bytes used and delivered data
  do not change. On an error exactly the slice under the live mark of the failing buffer is
  not delivered.
- A parser behind a finished request behaves like a new one, on every further input, if and
  only if the request was not chunked: `nread` is not reset behind a trailer, so its bytes
  take room from the headers of the next request (`HttpReuse.FreshExactly`,
  `HttpReuse.FreshAfterRequest`; `HttpReuse.LineEndsRefused` is an input).
- The first line of a header decides the flags and the last one the length: under
  Content-Length each continuation line replaces the number, `chunked` on a continuation
  line is not seen, and headers of a trailer still decide whether the connection stays open
  (`HttpRequest.RunHeader`, `HttpRequest.RequestRoundTrip`).
- Content-Length values may contain blanks anywhere behind the first digit, and hexadecimal
  sizes may contain bytes of 128 and above, which count as 0.
- A URL with a schema always has a host if and only if the structure held no host range when
  the function was called (`HttpUrl.SchemaNeedsHostExactly`).
- The reported ranges are non-empty and disjoint for all URLs of at most 65535 bytes if and
  only if the structure held at most two bytes of an earlier host; from three bytes on, even
  the URL `a` can be given a port (`HttpUrl.StaleHostExactly`). Under that condition they are
  so for all URLs of a length if and only if the length fits 16 bits; longer URLs pass as
  well (`HttpUrl.FieldsDisjointExactly`).
- The URLs that are accepted are exactly those of `HttpUrlLanguage.UrlDecided`. Among them is
  the empty one, and for CONNECT `@host:80` and `host:80?##`, since only fields that are not
  empty are counted.
- `strtoul` may read past the end of the URL; `HttpUrlBuild.PortExactly` says exactly when the
  number is still the one in the URL.
- A device that appears while no pin is powered makes `gpio_handler_handle_probe_connect`
  pass a null pointer on; `GpioProbe.ConnectSafeExactly` says exactly when. The guard
  against it looks at the port of the event in every turn of its loop instead of at each
  port, so it misses the case it was written for (`GpioLimits.LateConnectRun`).
- A device of another pin that reconnects during probing undoes that pin's mapping
  (`GpioWiring.ReconnectMisplaces`; `GpioLimits.MisplacedRun` is a run that ends with a wrong
  mapping file).
- A GPIO port is inserted twice into the timeout list exactly by the events of
  `GpioProbe.DoublesUp`, and over whole runs by no others (`GpioProbe.RunGood`):
  - `gpio_write_config` restarts all ports before it links the mapping file; if `link` fails,
    as it does when the file exists, and the last port is powered, it is inserted twice
    (`GpioLimits.DoubleInsertionRun`);
  - outside probe mode, a device that is new to the port appears on an enabled port that is
    not being reset and whose timer runs. After a failing `link` behind a pin that is off this
    is any new device on that pin until its timer fires (`GpioAfter.LinkFailureDoubles`,
    `GpioLimits.LateDoubleInsertionRun`); the file is not written again
    (`GpioAfter.LinkFailureNotRetried`). A client gets there as well, by a restart that it
    cuts short (`GpioLimits.RequestsRun`);
  - a ping ends while the timer of its port runs (`GpioLimits.LatePingRun`), or leads to a
    restart that cannot be written, since the failed restart has started the timer already
    (`GpioLimits.FailedRestartRun`).

  Once the mapping file is stored, nothing is inserted twice as long as a device only appears
  when the one before it is gone, pings end before their device goes and before the timer
  runs again, restarts can be written, and clients do not enable a port whose timer still
  runs (`GpioAfter.StoredNeverDoubles`).
- If a pin cannot be switched on while others are done, the next timeout brings probing to a
  halt, with pins that wait and soon no timer, if and only if the first GPIO port with a
  device at that moment has been probed already (`GpioFaults.FailedEnableStalls`;
  `GpioFaults.FailedEnableRun` is an input).
- A DIGITAL_OUT reply without a number is taken for one, with the mask of the transaction
  before, if and only if it breaks off before the number (`LannerText.BrokenExactly`).
- A read that fills the 256 bytes of the MCU's input buffer wraps the 8-bit count to 0 and
  loses the data; the test for oversized replies cannot succeed
  (`LannerFraming.FollowsRuleExactly`).
- The event loop sleeps exactly until the first timer if and only if that is less than
  2^31 milliseconds away (`Timers.SleepExactly`).

## Model

| member | source | states |
|---|---|---|
| HttpInvariant.PushDigitExact | src/http_parser.c:1498-1521 | the guard accepts a further digit exactly when the new size is within the limit, and then the 64-bit product has not wrapped; the same guard stands at lines 1782-1793 with base 16 |
| HttpInvariant.ReactInv | src/http_parser.c:660-1875 | a byte with all jumps back to it keeps the invariant, or fails with an error other than the internal ones |
| HttpInvariant.FeedInv | src/http_parser.c:638-1875 | the same with the limit on header bytes |
| HttpInvariant.RunInv | src/http_parser.c:638-1882 | in every state that any input reaches: no assertion fails, no default branch is taken, matcher indexes stay inside their words, and stored sizes stay below the limits or are the sentinel for an absent size |
| HttpStep.ReexecuteTerminates | src/http_parser.c:660-1859 | every jump back to the same byte lowers the rank of the state |
| HttpStep.RunSplit | src/http_parser.c:638-1890 | cutting the input of the byte machine anywhere changes nothing |
| HttpExecute.HttpParser.constructor | src/http_parser.c:1951-1960 | a new parser is the initial state of the byte machine |
| HttpExecute.HttpParser.OnPass | src/http_parser.c:660-1875 | one pass over a byte is `Micro`; delivered and pending data stay the event stream, and at most the mark of the state is live |
| HttpExecute.HttpParser.SkipIdentity | src/http_parser.c:1695-1729 | the bulk skip is the byte-wise run over all bytes it skips |
| HttpExecute.HttpParser.SkipChunk | src/http_parser.c:1823-1844 | the same for the data of a chunk |
| HttpExecute.HttpParser.Advance | src/http_parser.c:638-1875 | one turn of the loop over the buffer extends the run by the bytes it used |
| HttpExecute.HttpParser.ExecuteBuffer | src/http_parser.c:615-1897 | a call on a non-empty buffer: fields, bytes used and outcome are those of the byte machine; slices lie in the buffer, in order and without overlap, and spell its data events; on an error just the slice under the live mark is missing |
| HttpExecute.HttpParser.Execute | src/http_parser.c:574-1897 | the same, with the calls in an error state and at the end of the input |
| HttpSegments.RunUpgrade | src/http_parser.c:1618-1663 | the upgrade field is set exactly when the parser gives the connection away |
| HttpSegments.SegmentStep | src/http_parser.c:615-1890 | one more buffer continues the run over the joined input; a run that has ended is not changed by later buffers |
| HttpSegments.ExecuteAll | src/http_parser.c:574-1897 | for any cutting of a request into buffers the final fields, the total of used bytes and the joined callbacks are those of one call on everything |
| HttpBodies.IdentityRun | src/http_parser.c:1695-1729 | delivered bytes and remaining length always add up to the declared length; the message completes with exactly the last byte |
| HttpBodies.IdentityConservation | src/http_parser.c:1676-1729 | bytes behind a body of declared length are parsed as the next message |
| HttpBodies.ChunkRun | src/http_parser.c:1823-1844 | the data of a chunk is delivered byte by byte, and exactly its announced length |
| HttpMethods.OtherMethodPrefix | src/http_parser.c:957-1020 | switching to another candidate keeps the letters read so far a prefix of the candidate |
| HttpMethods.RecogniserSound | src/http_parser.c:906-1028 | what has been read is line ends, the prefix of length `index` of the candidate, and blanks |
| HttpMethods.RecogniserComplete | src/http_parser.c:906-1028 | each of the 26 names is recognised |
| HttpMethods.MethodRecogniser | src/http_parser.c:906-1028 | the URL is awaited if and only if the input was line ends, one of the 26 names and blanks, and `method` is that one |
| HttpHeaders.NameDecided | src/http_parser.c:1225-1387 | at the colon the matcher stands for a known header if and only if the whole name, without regard to case, is that header's; `proxy-connection` counts as `connection` |
| HttpHeaders.ValueDecided | src/http_parser.c:1405-1590 | the first line of a value raises the chunked, keep-alive or close flag if and only if it is that word, without regard to case, and trailing blanks |
| HttpNumbers.ContentLengthDecided | src/http_parser.c:1444-1521 | a Content-Length is accepted if and only if it is digits and blanks, a digit first, and at most 18446744073709551609; then it is stored exactly, so the sentinel for an absent length is never stored |
| HttpNumbers.ChunkSizeDecided | src/http_parser.c:1743-1794 | a chunk size is accepted if and only if it is at most 2^64 - 17, and then stored exactly |
| HttpNumbers.HexRoundTrip | src/http_parser.c:181-190 | the hexadecimal digits of a number read back as the number |
| HttpChunked.RunChunk | src/http_parser.c:1743-1859 | one encoded chunk delivers its data and leads back to the next size |
| HttpChunked.ChunkedRoundTrip | src/http_parser.c:1743-1859 | an encoded body, with any spelling of the sizes and any extensions and an empty trailer, delivers exactly the joined data, completes the message once and ends where a message starts; by HttpSegments.ExecuteAll under any segmentation |
| HttpChunked.ChunkForIsValid | src/http_parser.c:1743-1794 | the usual encoding of any non-empty data is one of these |
| HttpRecycle.MicroAlike | src/http_parser.c:660-1875 | parsers that agree on the fields still in use report the same and agree again |
| HttpRecycle.RecycledIsFresh | src/http_parser.c:906-945 | from the start state every further input has the events, the count and the error of a new parser, unless the run ends at the header limit |
| HttpReuse.FreshExactly | src/http_parser.c:638-658 | a parser in the start state reports the same as a new one for every further input if and only if no header byte is counted any more |
| HttpReuse.FreshAfterRequest | src/http_parser.c:1604-1693 | so after a request the next one is parsed as by a new parser if and only if the request was not chunked; the size of the trailer stays counted |
| HttpReuse.LineEndsRefused | src/http_parser.c:1604-1611 | an input: behind a chunked request with an empty trailer, line ends that a new parser accepts are refused |
| HttpRequest.RunHeader | src/http_parser.c:1225-1602 | a header, on one line or continued, reports its name and its value without the blanks before it on each line; its first line decides the flags and its last one the length, and a header without a value on its first line means nothing |
| HttpRequest.RunFold | src/http_parser.c:1592-1602 | a line that continues a value raises no flag, and under Content-Length replaces the length |
| HttpRequest.RunHeaders | src/http_parser.c:1225-1602 | so do any number of headers, in their order |
| HttpRequest.RunHead | src/http_parser.c:906-1693 | the head of a request, of any method, URL, version and headers |
| HttpRequest.RunTrailer | src/http_parser.c:1225-1611 | the headers of a trailer are reported like the other ones and change the flags like them, and the line behind them completes the message |
| HttpRequest.UpgradeLeaves | src/http_parser.c:1618-1663 | a CONNECT request or one with an Upgrade header completes with its headers, and no byte behind them is used |
| HttpRequest.RunBody | src/http_parser.c:1665-1859 | the body that the headers announce is delivered and completes the message |
| HttpRequest.RequestRoundTrip | src/http_parser.c:906-1859 | a request written from method, URL, version, headers, body and trailer is reported as just these, completes once, and leaves the parser ready for the next message, or closed if version and Connection headers say so |
| HttpRequest.PipelineRoundTrip | src/http_parser.c:906-1859 | requests that follow each other are reported one after the other, nothing of one leaking into the next |
| HttpConnection.Receive | src/http_parser.c:574-1897 | for the parser object and any cutting of these requests into buffers: all callbacks together report exactly the requests, and every byte is used |
| HttpTargets.TailByte | src/http_parser.c:200-235 | for every byte: in a path, a query or a fragment exactly the bytes 33 to 126 are taken, 35 and 63 lead from path to fragment and query, and every other byte is refused |
| HttpTargets.ServerByte | src/http_parser.c:365-504 | for every byte, what it does in the authority of a target |
| HttpTargets.SchemaByte | src/http_parser.c:436-480 | for every byte, how a target may begin, up to the authority |
| HttpTargets.ServerExactly | src/http_parser.c:481-520 | the state tells authority, tail and refusal apart: the bytes read are an authority without two at signs next to each other, or one with a printable tail behind a slash or question mark, or neither |
| HttpTargets.TargetExactly | src/http_parser.c:426-571 | the targets that leave the parser in a state that may end are exactly: authority and tail for CONNECT; else a slash or asterisk and printable bytes, or letters, `://`, and a non-empty authority or tail |
| HttpTargets.TargetDecided | src/http_parser.c:1030-1101 | in front of the header limit exactly these targets are reported, byte by byte, up to a blank or line end (then the version is 0.9); every other text is an invalid URL |
| HttpWords.TokenTable | src/http_parser.c:146-178 | for every byte: whether it is a token, and its lower case |
| HttpWords.HostTable | src/http_parser.c:365-375 | for every byte: whether it may stand in userinfo and in a host name |
| HttpWords.HexTable | src/http_parser.c:181-190 | for every byte: its value as a hexadecimal digit, 0 from 128 on |
| HttpWords.NameAccepted | src/http_parser.c:1225-1402 | exactly the texts of token bytes are reported as names of headers; every other one is an invalid token |
| HttpWords.NamesExactly | src/http_parser.c:1225-1387 | the five names with a meaning, in capital or small letters |
| HttpWords.FlagsExactly | src/http_parser.c:1405-1590 | which flags a header raises, by its words |
| HttpWords.MethodNames | src/http_parser.h:81-111 | the 26 names |
| HttpWords.VersionAccepted | src/http_parser.c:1136-1213 | a version of at most three digits without a leading zero, a point and a number of at most three digits behind zeros is taken and stored |
| HttpWords.VersionRefused | src/http_parser.c:1136-1213 | every other text is an invalid version |
| HttpWords.DecimalRoundTrip | src/http_parser.c:1498-1521 | the decimal digits of a number read back as the number |
| HttpWords.HeaderLimit | src/http_parser.c:638-658 | a byte overflows the limit if and only if 81920 header bytes were counted before and the state is none of the five of bodies |
| HttpWords.ErrorsAre | src/http_parser.c:660-1875 | the error that each state reports |
| HttpWords.AwaitedExactly | src/http_parser.c:660-1875 | in the states that wait for certain bytes, exactly these do not end the parse |
| HttpWords.FollowingExactly | src/http_parser.c:660-1875 | the state behind every byte that is taken in the states that follow the form of lines and chunks, and whether the byte is looked at again |
| HttpWords.LineWithoutColon | src/http_parser.c:1384-1402 | a line without a colon is reported as a name without a value and raises no flag |
| HttpWords.HeadExactly | src/http_parser.c:906-1602 | the heads for which requests are proved to be reported, by the codes of their bytes |
| HttpWords.TextRoundTrip | src/http_parser.c:906-1859 | so a request with any such head is reported as it was written |
| HttpWords.OriginTarget | src/http_parser.c:200-235 | for example with any target of a slash and printable bytes |
| HttpUrl.ScanAllOk | src/http_parser.c:2125-2181 | the ranges found by the scan are disjoint and end where the scan stands |
| HttpUrl.HostAllOk | src/http_parser.c:2039-2110 | userinfo, host and port are found in this order inside the host part, and other fields are untouched |
| HttpUrl.FieldsDisjoint | src/http_parser.c:2112-2209 | with at most two bytes of an earlier host in the structure, on success all fields that are set are non-empty ranges inside the URL and disjoint, for URLs of at most 65535 bytes |
| HttpUrl.FieldsInside | src/http_parser.c:2112-2209 | with at most two bytes of an earlier host in the structure, no field reaches behind the end of the URL, however long it is |
| HttpUrl.StaleHostExactly | src/http_parser.c:2183-2189 | disjoint, non-empty ranges for all accepted URLs of at most 65535 bytes if and only if the structure holds at most two bytes of an earlier host at the call |
| HttpUrl.FieldsDisjointExactly | src/http_parser.c:2163-2172 | under that condition success means disjoint, non-empty ranges for all URLs of a length if and only if the length fits the 16-bit offsets |
| HttpUrl.SchemaNeedsHostExactly | src/http_parser.c:2183-2189 | every accepted URL with a schema has a host if and only if the structure holds no host range at the call |
| HttpUrlBuild.RoundTrip | src/http_parser.c:2112-2209 | a URL of at most 65535 bytes built from schema, userinfo, name or bracketed address, port, path, query and fragment, each of the optional ones present or not, is split into exactly these ranges, with the number that its port and the digits behind the URL spell, and refused exactly if that is above 65535 |
| HttpUrlBuild.TextAt | src/http_parser.c:2170-2181 | the reported ranges hold the components |
| HttpUrlBuild.ConnectRoundTrip | src/http_parser.c:2191-2206 | a CONNECT target of host and port is accepted with just these two fields |
| HttpUrlBuild.PortExactly | src/http_parser.c:2196-2206 | the URL is accepted with the port it was built with if and only if it does not end with a port, or no digit follows it in memory, or port and following digits are zero |
| HttpUrlBuild.PortOverrun | src/http_parser.c:2196-2206 | a digit behind the end of the URL becomes part of the number |
| HttpUrlParser.UrlFields.ParseHost | src/http_parser.c:2039-2110 | the loop over the host part has the result of the recursive scan |
| HttpUrlParser.UrlFields.ParseUrl | src/http_parser.c:2112-2209 | the function on the structure and the buffer has the result of the recursive scan, whatever the structure held before |
| HttpHosts.HostDecided | src/http_parser.c:1974-2110 | a host part is taken if and only if it is a name or a bracketed address, with a colon and digits or without, behind userinfo and an at sign if the scan has seen one |
| HttpUrlLanguage.PlacesUnique | src/http_parser.c:1974-2110 | in an accepted host part the places of host and port are unique |
| HttpUrlLanguage.FromAuthority | src/http_parser.c:2039-2206 | from the start of the authority on a URL is accepted if and only if its host part has such places, the port and the digits behind it in memory are at most 65535, only printable bytes follow, and for CONNECT there is a port, no userinfo, and nothing behind but a question mark and number signs |
| HttpUrlLanguage.UrlDecided | src/http_parser.c:2112-2209 | with no host of an earlier call in the structure, a URL of at most 65535 bytes is accepted if and only if it is empty, a slash or asterisk and printable bytes, or letters, `://` and such an authority; for CONNECT, if and only if it is such an authority |
| GpioProbe.StartGood | src/gpio_handler.c:684-732 | probing starts with all pins off and one timer |
| GpioProbe.StepGood | src/gpio_handler.c:152-877 | every timely event keeps the protocol invariant (exactly one GPIO port has the probe timer until probing ends, and at most one is powered or being switched off; afterwards every enabled port is powered or about to be), or inserts a port twice into the timeout list, and that exactly under the listed conditions on the state before it |
| GpioProbe.WriteConfigPhase | src/gpio_handler.c:354-424 | writing the mapping: a failed write is tried again, success ends probing, and a failing link behind the restart of all ports inserts the port twice if and only if it is powered, and else ends probing |
| GpioProbe.ConnectSafeExactly | src/gpio_handler.c:804-877 | a connect event passes on a null pointer if and only if no pin is powered and the port of the path is not the one being switched off |
| GpioProbe.StepMoves | src/gpio_handler.c:152-450 | a pending pin stays pending or is powered, and a probed one stays probed |
| GpioProbe.RunGood | src/gpio_handler.c:152-877 | over whole runs of probe timeouts, devices, other timers, pings, requests of clients and restarts of idle ports the invariant stays until a port is inserted twice, which happens exactly at an event as in StepGood, and a pin is powered for probing exactly once on the way from pending to probed |
| GpioProbe.PoweredExactlyOnce | src/gpio_handler.c:152-877 | from start to end every GPIO pin is powered for probing exactly once; afterwards every enabled port is on or about to be switched on, and every port is enabled that no client disables |
| GpioProbe.EndedStep | src/usb_monitor_callbacks.c:37-178 | after probing an event leaves probe states and paths alone, or inserts a port twice exactly under the listed conditions |
| GpioProbe.StepDescends | src/gpio_handler.c:426-450 | once all pins are off, every timeout and every device found lowers a lexicographic measure |
| GpioProbe.QuietStep | src/usb_monitor_callbacks.c:107-121 | all other events do not raise the measure |
| GpioProbe.ProbingEnds | src/gpio_handler.c:152-450 | so once all pins are off, probing has ended, or stopped at a double insertion, after more timeouts and devices than the measure says, in whatever order they come |
| GpioWiring.ConnectPlaces | src/gpio_handler.c:738-877 | exchanging paths gives the powered pin its true ones and takes none from a pin that has found its own |
| GpioWiring.StepPlaces | src/gpio_handler.c:152-877 | every truthful event keeps the found part of the wiring and the collection of path groups |
| GpioWiring.WiringRecovered | src/gpio_handler.c:684-877 | whatever the first order of the path groups and whichever pins time out, each port whose device appeared owns its true paths, and the groups are only permuted, as long as no port is inserted twice |
| GpioWiring.MappingComplete | src/gpio_handler.c:684-877 | when all pins but at most one have shown their device, the mapping is the truth |
| GpioWiring.AllButOneIsEnough | src/gpio_handler.c:738-784 | a permutation that is right in all places but one is right |
| GpioWiring.ReconnectMisplaces | src/gpio_handler.c:848-877 | the exact effect of a device on a path of another pin, and when it leaves that pin its paths |
| GpioEffects.OwnsExactly | src/usb_monitor_lists.c:53-76 | a port owns exactly the paths in front of the first gap of its array |
| GpioEffects.TimeoutEffect | src/gpio_handler.c:217-450 | the timer of the pin in hand: off for five seconds after its 60; then the first waiting pin is on for 60 seconds, or the mapping is written and every port that is on goes off for ten seconds and every other one on |
| GpioEffects.ConnectEffect | src/gpio_handler.c:738-877 | a device that appears while a pin is powered goes to that pin, whichever port had the path; the two exchange their paths, the other port is left without a device, and the pin is finished |
| GpioEffects.DeviceFound | src/gpio_handler.c:786-802 | so behind the event the powered pin has exactly this device, the other port has none, and all other devices are as before |
| GpioEffects.LateDevice | src/gpio_handler.c:804-826 | a device on the pin that is being switched off only leaves its name |
| GpioEffects.StillThere | src/gpio_handler.c:182-210 | while a device is left, the ports before the first such one are down, that one is looked at again in five seconds, and nothing is powered |
| GpioEffects.AllGone | src/gpio_handler.c:182-215 | without devices all pins are down and the first one is powered for 60 seconds |
| GpioEffects.AddedEffect | src/usb_monitor_callbacks.c:58-105 | a new device outside probe mode is noted and pinged in ten seconds, or its port is restarted; it is ignored on a disabled port and on one that is being reset |
| GpioEffects.RemovedEffect | src/usb_helpers.c:228-258 | nothing is left of a device that goes |
| GpioEffects.ExpiredEffect | src/gpio_handler.c:437-461 | the timer of a port outside probe mode, with the seconds until the next |
| GpioEffects.PingedEffect | src/usb_helpers.c:260-307 | the next ping in five seconds, or a restart |
| GpioEffects.RequestEffect | src/usb_monitor_client.c:197-230 | what each request changes, and which are skipped |
| GpioEffects.ResetAllEffect | src/usb_helpers.c:448-463 | exactly the enabled ports that are neither reset nor probed are switched: all of them, or those without a device |
| GpioEffects.RestartCycle | src/gpio_handler.c:82-148 | a restart by a client and the timer behind it: off for ten seconds, and then on and as before |
| GpioEffects.StartEffect | src/gpio_handler.c:684-732 | all pins off, and only the timer of the last GPIO port runs, for five seconds |
| GpioEffects.FailedUpdate | src/gpio_handler.c:82-148 | a file that cannot be written leaves the power as it is; when that is an error |
| GpioEffects.FailedPowerUp | src/gpio_handler.c:152-180 | a pin that cannot be switched on is tried again in five seconds |
| GpioEffects.FailedPowerDown | src/gpio_handler.c:217-234 | and so is one that cannot be switched off |
| GpioHandler.UsbPort.UpdatePort | src/gpio_handler.c:82-148 | the switching function has the specified new state and return code, whether the GPIO file can be written or not |
| GpioHandler.Monitor.ProbeEnablePort | src/gpio_handler.c:152-180 | the first waiting pin is powered and its timer started; if it cannot be switched on, only its timer |
| GpioHandler.Monitor.HandleProbeUpTimeout | src/gpio_handler.c:217-234 | a pin whose device did not come is switched off again; if that fails, it stays the pin in hand, and its timer runs again |
| GpioHandler.Monitor.WriteConfig | src/gpio_handler.c:354-424 | a failed write is tried again later; otherwise all ports are restarted, and after a failing link the port is put into the timeout list, unless it is there |
| GpioHandler.Monitor.FireTimeout | src/usb_monitor_callbacks.c:161-174 | the expired port leaves the list before its handler runs |
| GpioHandler.Monitor.SwapPaths | src/gpio_handler.c:754-784 | for arrays without gaps the three loops exchange the contents |
| GpioHandler.Monitor.DeviceAdded | src/usb_monitor_callbacks.c:37-105 | the hotplug event on a path of a GPIO port, in probe mode and outside |
| GpioHandler.Monitor.DeviceRemoved | src/usb_helpers.c:228-258 | the removal of the device of a GPIO port, whose timer stops unless it is being reset or probed |
| GpioHandler.Monitor.FireRunning | src/usb_monitor_callbacks.c:161-174 | the timer of a port outside probe mode: a ping, a restart, or nothing if the port is disabled |
| GpioHandler.Monitor.PingEnds | src/usb_helpers.c:260-307 | the end of a ping, unless it would insert the port twice |
| GpioHandler.Monitor.UpdateRequested | src/usb_monitor_client.c:197-230 | a request of a client for one path; ports in probe mode are left alone |
| GpioHandler.Monitor.ResetAllPorts | src/usb_helpers.c:448-463 | the loop restarts exactly the enabled ports that are neither reset nor probed, all of them or those without a device |
| GpioHandler.Monitor.StartProbe | src/gpio_handler.c:684-732 | all pins off, all timers stopped but the one of the last GPIO port; the first pin that cannot be switched off ends the start with an error and the ports before it changed |
| GpioRuns.StepDense | src/gpio_handler.c:738-784 | path arrays stay without gaps |
| GpioRuns.HandleEvent | src/usb_monitor_callbacks.c:37-178 | an event on the port objects is the event of the model; no timer is stopped when it does not run, and none is started twice unless the event is one of those that insert a port twice |
| GpioRuns.Probe | src/gpio_handler.c:684-877 | the same for whole runs |
| GpioAfter.NeverWritten | src/gpio_handler.c:437-461 | after probing no run depends on whether the mapping file can be written |
| GpioAfter.LinkFailureNotRetried | src/gpio_handler.c:411-417 | after a failing link behind a pin that is off, whatever happens the file is not written again, and the timer of the port only switches it off and on |
| GpioAfter.LinkFailureDoubles | src/usb_monitor_callbacks.c:58-99 | and right behind it a device event inserts a port twice if and only if it is a new device on a path of that port |
| GpioAfter.StoredNeverDoubles | src/gpio_handler.c:236-253 | once the file is stored, no device event inserts twice a port that waits for its restart, and no calm run ever inserts a port twice |
| GpioLimits.DoubleInsertionRun | src/gpio_handler.c:405-417 | a run of two pins that inserts the last port twice |
| GpioLimits.LateDoubleInsertionRun | src/usb_monitor_callbacks.c:97-99 | a timely run in which the second pin times out, link fails, and a device on that pin inserts the port twice |
| GpioLimits.ServingRun | src/gpio_handler.c:152-424 | a run of two pins without devices from the start to ports in use, from which the next three go on |
| GpioLimits.RequestsRun | src/usb_monitor_client.c:197-230 | a client restarts, disables and enables a port, and its device inserts it twice |
| GpioLimits.LatePingRun | src/usb_helpers.c:260-307 | a device goes and comes back while a ping is under way, and the end of the ping inserts the port twice |
| GpioLimits.FailedRestartRun | src/usb_helpers.c:279-306 | a restart that cannot be written behind too many failed pings inserts the port twice |
| GpioLimits.LateConnect | src/gpio_handler.c:804-826 | while a pin is being switched off, a device on a path in probe mode makes the null pointer be followed if and only if the path belongs to another port |
| GpioLimits.LateConnectRun | src/gpio_handler.c:804-826 | a run from the start that ends there |
| GpioLimits.MisplacedRun | src/gpio_handler.c:848-877 | a run in which both pins show their device and both ports end with the wrong paths |
| GpioFaults.FailedDisableRetries | src/gpio_handler.c:217-234 | however often a pin cannot be switched off, it stays the one in hand and nothing else changes; the first success goes on as if it had never failed |
| GpioFaults.FailedEnableStalls | src/gpio_handler.c:152-210 | after a pin that cannot be switched on, and whatever happens until the timer fires, probing halts for every timely run if and only if the first GPIO port with a device at that moment has been probed |
| GpioFaults.FailedEnableRun | src/gpio_handler.c:152-210 | a run of two pins that gets there |
| LannerProof.CreateMaskPort | src/lanner_handler.c:315-346 | the bit of every port in the mask for the MCU: set or cleared by the command of a pending port, else unchanged |
| LannerProof.CreateMaskRest | src/lanner_handler.c:315-346 | all bits outside the pending mask are unchanged |
| LannerProof.OkPendingPort | src/lanner_handler.c:411-451 | an OK takes exactly the completed ports out of the pending mask |
| LannerProof.OkHistory | src/lanner_handler.c:411-454 | after an OK every port asked for is pending or settled, and all other bits are as they were when the lock was taken |
| LannerProof.StepKeeps | src/lanner_handler.c:32-686 | every event keeps the invariant |
| LannerOutcome.RunKeeps | src/lanner_handler.c:32-686 | so it holds in every reachable state |
| LannerOutcome.NeverStuck | src/lanner_handler.c:614-686 | outside IDLE exactly one of iteration callback, timer, writing and awaited reply is due; the lock is held exactly from GET_VERSION to UPDATE_DONE |
| LannerOutcome.OkTakesOneRound | src/lanner_handler.c:411-465 | each OK lowers the number of rounds left, at most 2, by one, and the transaction is over exactly when none is left |
| LannerOutcome.HelpfulDescends | src/lanner_handler.c:273-686 | every step without a failure comes nearer to the end |
| LannerOutcome.HelpfulPossible | src/lanner_handler.c:614-686 | and such a step is always possible |
| LannerOutcome.Finishes | src/lanner_handler.c:32-686 | so without failures the handler is idle after at most 500 steps |
| LannerOutcome.RunRecords | src/lanner_handler.c:32-74 | ports hold the last command of the current batch |
| LannerOutcome.Outcome | src/lanner_handler.c:32-478 | at the end of every run of a batch nothing is pending, each port asked for agrees with its bit and its last command and, if that switched it on, is in mode IDLE, and every other bit is as it was when the lock was taken; errors and retransmissions do not matter |
| LannerOutcome.TransactionOutcome | src/lanner_handler.c:411-686 | the same from lock to last OK, with untouched ports unchanged and the exact number of commands carried out |
| LannerOutcome.RestartingMode | src/lanner_handler.c:32-454 | a port has mode RESET as long as its restart is pending |
| LannerEffects.RequestDecided | src/lanner_handler.c:32-74 | a request is accepted if and only if no transaction runs, and then the port awaits just it, and the handler is due |
| LannerEffects.RequestPending | src/lanner_handler.c:32-74 | and its bit joins those that wait |
| LannerEffects.ErrorDecided | src/lanner_handler.c:468-507 | an error reply has the command written again, but not before it is written whole |
| LannerEffects.VersionDecided | src/lanner_handler.c:468-507 | a version is answered with the next command if it is awaited, and else changes nothing |
| LannerEffects.MaskDecided | src/lanner_handler.c:386-507 | and so is a mask, which is stored |
| LannerEffects.OkDecided | src/lanner_handler.c:411-507 | an OK that is awaited ends the transaction or arms the timer for the next round |
| LannerEffects.StartDecided | src/lanner_handler.c:614-652 | a batch that waits is started if and only if the file is locked and the device open; else it is tried again and the lock is not kept |
| LannerEffects.MidwayWrites | src/lanner_handler.c:652-666 | in the midst of a transaction the command of the state is written |
| LannerEffects.LockGivenUp | src/lanner_handler.c:670-682 | behind a transaction the lock is given up |
| LannerOutcome.RoundsOfBatch | src/lanner_handler.c:32-74 | a batch takes two rounds exactly when it asks some port for a restart |
| LannerHandler.LannerShared.UpdatePort | src/lanner_handler.c:32-74 | a request is registered, or refused with 503 while the MCU is in use |
| LannerHandler.LannerShared.CreateMcuBitmask | src/lanner_handler.c:315-346 | the loop computes the specified mask |
| LannerHandler.LannerShared.OkReply | src/lanner_handler.c:411-465 | the loop, which tests the mask it changes, has the effect specified on the mask before it |
| LannerHandler.LannerShared.HandleMsg | src/lanner_handler.c:468-507 | a reply in every state; what lines are such replies is in LannerText.LineMeansReply |
| LannerHandler.Transact | src/lanner_handler.c:32-686 | a whole run of handler and MCU on objects is the run of the model, and the timer is never inserted twice |
| LannerFraming.WireRoundTrip | src/lanner_handler.c:509-594 | every list of messages, with any NULs between them, comes out as it was sent |
| LannerFraming.CutAppend | src/lanner_handler.c:509-594 | cutting the byte stream into pieces does not matter to the rule |
| LannerFraming.FollowsRuleExactly | src/lanner_handler.c:509-594 | a read has the result of the rule if and only if it does not fill the buffer |
| LannerFraming.LostReply | src/lanner_handler.c:538-559 | a reply is lost when 255 bytes wait and its newline arrives |
| LannerFraming.Input.HandleInput | src/lanner_handler.c:509-594 | messages handed on and bytes kept after any read |
| LannerFraming.ReadAll | src/lanner_handler.c:509-594 | for any reads that leave room in the buffer the messages are those of the rule and the buffer holds the unfinished one |
| LannerText.LineMeansReply | src/lanner_handler.c:386-507 | every line that an MCU of either version writes for a reply, with anything behind it, has the effect of that reply in every state |
| LannerText.BrokenExactly | src/lanner_handler.c:386-409 | a DIGITAL_OUT line without a number keeps the old mask and goes on if and only if nothing but an equals sign and blanks follows the name |
| LannerText.StatusExactly | src/lanner_handler.c:468-507 | a reply is an error if and only if it begins with a number that is not 100 in 16 bits |
| LannerText.ReplyTexts | src/lanner_handler.c:468-507 | how the lines of the other replies begin |
| LannerText.CommandReadsBack | src/lanner_handler.c:348-384 | the MCU can read every command back from its text |
| LannerText.CodesExactly | src/lanner_handler.c:386-409 | digits and white space by their codes |
| LannerText.LengthOfText | src/lanner_handler.c:348-384 | the lengths against which partial writes are measured are those of the command lines |
| Lists.List.InsertHead | src/usb_monitor_lists.c:79-82 | LIST_INSERT_HEAD on well-formed links |
| Lists.List.InsertMember | src/usb_monitor_lists.c:79-82 | LIST_INSERT_HEAD of a member: the nodes up to it become a cycle, which a walk from the head never leaves |
| Lists.List.InsertAfter | src/backend_event_loop.c:108-108 | LIST_INSERT_AFTER on well-formed links |
| Lists.List.Remove | src/usb_monitor_lists.c:84-89 | LIST_REMOVE and clearing of both pointers |
| Lists.List.MemberIsActive | src/usb_monitor_lists.c:91-94 | a member of the list passes the program's test for membership |
| Timers.InsertedSorted | src/backend_event_loop.c:89-109 | insertion keeps the queue sorted, behind timers that are due at the same time |
| Timers.InsertAllSorted | src/backend_event_loop.c:89-109 | and any number of insertions loses and invents none |
| Timers.MidwayStep | src/backend_event_loop.c:160-179 | timers started by a callback go behind everything still due |
| Timers.EventLoop.InsertTimeout | src/backend_event_loop.c:89-109 | the list after an insertion is the specified queue |
| Timers.EventLoop.DeleteTimeout | src/backend_event_loop.c:111-122 | the timer leaves the queue, or nothing happens |
| Timers.EventLoop.Fire | src/backend_event_loop.c:162-175 | one timer leaves the queue, calls back, and is armed again or freed |
| Timers.EventLoop.RunTimers | src/backend_event_loop.c:150-180 | exactly the due timers fire, once each and in order; behind it the queue holds, in order and each timer once, exactly the timers that were later than now, those that callbacks started, and each fired one with an interval, due at now plus its interval; exactly the automatic one-shot timers are freed |
| Timers.PassExactly | src/backend_event_loop.c:150-180 | the entries of the queue behind a pass over the due timers, without reference to how they got there |
| Timers.SleepTime | src/backend_event_loop.c:194-205 | the timeout for `epoll_wait`, with its conversion to `int` |
| Timers.SleepExactly | src/backend_event_loop.c:198-205 | the loop wakes exactly when the first timer is due, or never without a timer, if and only if the wait fits into an `int` |
| PortTimeouts.AddTimeout | src/usb_monitor_lists.c:79-82 | the port is first in the list |
| PortTimeouts.CheckTimeouts | src/usb_monitor_callbacks.c:150-178 | the walk over the list, which handlers change, has the result of visiting each port of the start once |
| PortTimeouts.KeptExactly | src/usb_monitor_callbacks.c:150-178 | exactly the ports that had not expired stay, in their order; ports put back by handlers are not visited again |
| PortTimeouts.CalledExactly | src/usb_monitor_callbacks.c:169-173 | a handler is called if and only if now is not before the expiry of its port, and the port is enabled or in PROBE at its turn; a port stays in the list if and only if now is before its expiry |
| PortTimeouts.ActExactly | src/usb_monitor_lists.c:79-82 | what a handler does: a timeout that it starts puts the port first |
| PortTimeouts.CalledInOrder | src/usb_monitor_callbacks.c:150-178 | handlers are called in list order, none twice |

## Left out

- HttpCallbacks.EventsOf: a callback of length 0 leaves no event, because a buffer that ends behind a value causes one as well; so the boundary that an empty value puts between two header names is in the callbacks of one call (HttpExecute.HttpParser.OnValueStart) and not in the event stream.
- HttpInvariant.RunInv: does not tell whether a stored length was announced; that the sentinel is not among the announced ones is in HttpNumbers.ContentLengthDecided and HttpNumbers.ChunkSizeDecided.
- HttpExecute.HttpParser.Execute: response parsing, HTTP_BOTH, non-strict mode, pausing, failing callbacks, F_SKIPBODY and bodies that end with the connection are not modelled, because the program builds request parsers with callbacks that return 0.
- HttpRequest.RequestRoundTrip: names and URL are not empty, continuation lines are not blank, and the head fits into the limit on header bytes.
- HttpSegments.ExecuteAll: empty buffers are not part of a cutting, since an empty buffer means the end of the input.
- HttpUrl.Digits: for URLs of more than 65535 bytes the 16-bit offset of the port can point anywhere; blanks and a sign, which `strtoul` accepts there, are read as no digits.
- HttpUrlLanguage.UrlDecided: speaks of structures that hold no host of an earlier call and of URLs of at most 65535 bytes; HttpUrl.SchemaNeedsHostExactly and HttpUrl.FieldsDisjointExactly say what happens otherwise.
- HttpUrlBuild.RoundTrip: components are non-empty when present, so an empty query or fragment mark is not built; the end of the modelled memory stands for a byte that is no digit.
- GpioProbe.StepGood: devices appear only while a pin is powered, as GpioProbe.ConnectSafeExactly shows to be needed.
- GpioWiring.WiringRecovered: a device that appears while a pin is powered is one of that pin; GpioWiring.ReconnectMisplaces shows what happens otherwise.
- GpioProbe.StepDescends: speaks of temporary files that can be written; a failed write only waits and tries again.
- GpioHandler.Monitor.WriteConfig: (as DeviceAdded and PingEnds) is not called when it would insert the port twice, since nothing can be said about the lists afterwards; Lists.List.InsertMember says what becomes of the links. The JSON text is not modelled.
- GpioProbe.RunGood: in runs GPIO files can be written while pins are probed and ports restarted at its end, and when a device with a bad ID is restarted; other restarts and requests may fail. What a failing write does to probing is in GpioFaults.FailedEnableStalls and GpioFaults.FailedDisableRetries.
- GpioProbe.DoublesUp: pings end at any time in the model; that a transfer must be under way is not modelled.
- LannerText.LineMeansReply: lines that are blank or have a sign before a number are left out, and so is that `sscanf` stores four bytes for the mask of one byte, of which the next three are set anew or unused.
- LannerOutcome.Outcome: each port has a bit of its own, every whole command gets one reply, and a reply other than 100 means that the command was not carried out.
- LannerFraming.Input.HandleInput: a failing read, which ends the program, is left out.
- Timers.EventLoop.RunTimers: callbacks start timers that are in no list, due later than now, and not the firing one if the loop touches it again; a callback that stops other timers is left out.
- PortTimeouts.CheckTimeouts: handlers start timeouts of ports outside the list and change fields of ports; a handler that stops the timeout of another port is left out.
- USB transfers, hotplug registration, hub descriptors, the YKUSH and generic hub handlers: mostly foreign calls.
- Sockets, epoll, termios, flock and the clock: results and times are parameters.
- Configuration files, JSON replies, client slots, logging, daemon and option handling, path text conversion: thin glue.
