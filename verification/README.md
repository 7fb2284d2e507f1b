# pistreaming control and streaming core, in Dafny

A model of the sequential logic inside `server.py` of pistreaming, a Raspberry Pi
camera streamer with a small remote-control HTTP server. The model has five parts:

- **Stream header** (`stream_header.dfy`). This is the 8-byte record a viewer receives when its
  WebSocket opens. It is `Struct('>4sHH')` packing the tag `jsmp`, then the width and height as
  big-endian unsigned 16-bit integers. `Pack` and `Unpack` model the struct, including its
  `struct.error` cases, and they are proved to be mutual inverses.
- **Control requests** (`control.dfy`, `actuator.dfy`). `do_GET`/`do_HEAD` is modelled as one
  atomic step. It takes a request, the page contents, the clock reading and the motor state, and
  gives a response and the new state. The step covers the 301 redirect of `/`, the `/move` truth
  table and its timestamp, `/stop`, the static pages with their `Content-Length`, 400 and 404
  through `send_error`, and HEAD without a body. `urlparse` and `parse_qs` are library calls, so
  their results are part of the request. A small model of `parse_qs` grouping (`Group`) relates the
  raw query pairs to the first-value map the handler builds.
- **UTF-8** (`utf8.dfy`). The handler encodes each page with `str.encode('utf-8')` before it
  measures it. The encoder is proved injective by a decoder round trip.
- **Watchdog rule** (`actuator.dfy`, `session.dfy`). This is the staleness test of `MotorHandler.run`:
  both channels stop when `now - last_move > 2000`. It is modelled as a pure transition. In
  `server.py` it is never started, because `MotorHandler` is declared with `def` and passed to
  `Thread` wrongly. `Session` puts requests and checks of the rule into runs of events.
- **Broadcast loop** (`broadcast.dfy`). `BroadcastThread.run` is modelled over a finite sequence
  of per-iteration observations, each a read of at most 512 bytes plus the process's exit status.

Time is a `real`, in the units of Python's `time()`, which is seconds. So the threshold of 2000 is
2000 seconds as written.

Three behaviours of server.py are easy to miss, and the model follows them:

- A `/move` with an unrecognised `direction` leaves the channels alone, but it still sets
  `last_move` (server.py:73). So it keeps the watchdog from firing.
- A HEAD request runs the same handler as GET. So `HEAD /move?...` and `HEAD /stop` also drive the
  motors.
- `/stop` does not take `hat_lock`. Here every request is one atomic step anyway.

## Model

| member | source | states |
|---|---|---|
| StreamHeader.Pack | server.py:34-35 | Packing succeeds exactly when width and height are in 0..65535. Otherwise it fails with the range error. On success the result is 8 bytes: the 4-byte tag field, then width and height as big-endian u16. |
| StreamHeader.Unpack | server.py:35 | Unpacking succeeds exactly on 8-byte buffers. It yields a 4-byte tag and two values in the u16 range. |
| StreamHeader.TagField | server.py:35 | The `4s` field is always 4 bytes. A longer tag is truncated and a shorter one is zero-padded. |
| StreamHeader.EncodeU16 | server.py:35 | A `>H` field is two bytes, most significant first, whose value is the encoded number. |
| StreamHeader.DecodeU16 | server.py:35 | Decoding two big-endian bytes gives a u16 whose encoding is those bytes again. |
| StreamHeader.UnpackPack | server.py:34-35 | Take a header with a 4-byte tag and in-range width and height. Packing it and unpacking the result gives the same header back. |
| StreamHeader.PackUnpack | server.py:35 | Every 8-byte buffer is exactly the packing of what it unpacks to. |
| StreamHeader.Opened | server.py:133-135 | The header sent on open is the bytes `6a 73 6d 70 02 80 01 e0`. They unpack to tag `jsmp`, width 640 and height 480. |
| Utf8.EncodeChar | server.py:95 | A character encodes to 1 to 4 bytes, with the width set by its code point. The lead byte marks the length and every later byte is a continuation byte. |
| Utf8.Encode | server.py:95 | The encoded length is the sum of the per-character widths. The encoding is empty only for the empty string. |
| Utf8.DecodeEncodeChar | server.py:95 | Decoding the start of a character's encoding gives back that character and its width, whatever follows. |
| Utf8.DecodeEncode | server.py:95 | Decoding the UTF-8 encoding of any string gives back the string. |
| Utf8.AsciiLength | server.py:95-98 | An ASCII-only page has a Content-Length equal to its character count. |
| Actuator.ParseDirection | server.py:60-72 | A direction value is recognised exactly when it is one of the four names, matched exactly. |
| Actuator.Drive | server.py:61-72 | Each recognised direction sets both channels moving. The two channels agree exactly for forwards and backwards. |
| Actuator.DriveInjective | server.py:61-72 | Different directions drive different channel pairs. |
| Actuator.Move | server.py:58-73 | With no `direction` key the state is unchanged. With the key, the time is stamped. The channels follow the truth table: forwards gives both Forward, backwards both Backward, left one Backward and two Forward, right one Forward and two Backward. An unrecognised value leaves both channels unchanged. |
| Actuator.Stop | server.py:77-79 | Both channels are stopped and `last_move` is untouched. |
| Actuator.StopIdempotent | server.py:77-79 | Stopping twice is the same as stopping once. |
| Actuator.Watchdog | server.py:111-115 | When more than 2000 have passed since the last move, both channels are stopped. Otherwise the state is unchanged. The timestamp is never changed. |
| Actuator.WatchdogThreshold | server.py:112-115 | The rule changes the state exactly when the gap exceeds 2000 and some channel is moving. A gap of exactly 2000 does nothing. |
| Actuator.WatchdogIdempotent | server.py:110-115 | A repeated check at the same or a later time acts like the later check alone. |
| Actuator.WatchdogStopCommute | server.py:77-79 | The rule and `/stop` commute, and together they equal `/stop` alone. |
| Actuator.FreshMoveNotStale | server.py:73 | A move that names a direction protects the channels from the rule for the next 2000 time units. |
| Control.FirstValues | server.py:51-55 | A parse error is reported with its message. A key with an empty value list raises IndexError. The map is built exactly when the query parsed and every value list is non-empty, and then every key maps to the first of its values. |
| Control.Error | server.py:53-55 | `send_error` gives the code and `Connection: close`. It writes an error page only for GET, and that page carries the code and the message passed in. |
| Control.Serve | server.py:95-102 | A static page answers 200 with the content type, the length of the UTF-8 bytes and the time. The bytes are written only for GET. |
| Control.Handle | server.py:40-102 | The status is one of 200, 301, 400 or 404. 301 with `Location: /index.html` and no body happens exactly for the raw path `/`. A 404 is exactly `send_error(404, 'File not found')` and leaves the state unchanged. 400 happens exactly for a `/move` whose query fails. 404 happens exactly when neither the raw nor the parsed path matches a route. Only `/move` and `/stop` change state. A body is sent only for GET, and a page body always has a matching Content-Length. |
| Control.HeadMatchesGet | server.py:40-41 | HEAD gives the same status, headers and state change as GET, with no body. |
| Control.MoveRequest | server.py:50-76 | A parsed `/move` answers 200 and applies the move transition. An unparsable one answers 400 and leaves the state unchanged. |
| Control.StopRequest | server.py:77-82 | `/stop` always answers 200 and stops both channels. It keeps `last_move`. Repeating it changes nothing. |
| Control.StaticPages | server.py:83-102 | `/jsmpg.js` and `/index.html` serve the UTF-8 bytes of their page, announce that length, and change no state. |
| Control.Values | server.py:52 | The values listed for a key are non-blank and each comes from a pair of the query with that key. |
| Control.Group | server.py:52 | `parse_qs` lists exactly the keys that have a non-blank value, each with its non-blank values in query order. |
| Control.FirstOccurrence | server.py:52 | The first value listed for a key is the value of its first non-blank occurrence in the query. |
| Control.HasValue | server.py:52 | A key given with a non-blank value has at least one listed value. |
| Control.GroupHasNoEmptyList | server.py:52-55 | Real `parse_qs` output never triggers the IndexError branch. |
| Control.RepeatedDirectionUsesFirst | server.py:52-73 | With a repeated `direction`, the first non-blank occurrence chooses the channels, and the time is stamped. |
| Control.MissingDirectionIsNoOp | server.py:59-75 | A `/move` with no non-blank `direction` answers 200 and changes nothing. This covers a blank `direction=`. |
| Session.LastMoveOrigin | server.py:73 | After any run, `last_move` is the starting value or the clock reading of one of the events. |
| Session.StepMonotone | server.py:73 | With a clock that never goes backwards, no single event lowers `last_move`. |
| Session.LastMoveMonotone | server.py:73 | With a clock that never goes backwards, `last_move` never decreases along a run. |
| Session.StaysStopped | server.py:58-82 | Once both channels are stopped, they stay stopped through any run with no recognised move. Watchdog checks do not change this. |
| Session.StoppedFromStart | server.py:122-123 | Starting from stopped channels and `last_move` 0, the channels stay stopped through any run with no recognised move. |
| Session.StaleTickStops | server.py:111-115 | A check of the rule more than 2000 after the last move leaves both channels stopped. |
| Broadcast.Forwarded | server.py:173-175 | The forwarded chunks are never more than the reads and never empty. |
| Broadcast.Consumed | server.py:172-177 | The loop runs up to the first empty read from an exited process, and not past it. |
| Broadcast.ForwardedBytes | server.py:173-175 | The broadcast chunks concatenate to exactly the bytes read, in order. |
| Broadcast.IdleReadContinues | server.py:173-177 | An empty read while the process runs broadcasts nothing and continues. |
| Broadcast.Loop | server.py:170-179 | The loop stops exactly at the first empty read after the process exits. It has broadcast the non-empty reads before that, in order, each 1 to 512 bytes, and their concatenation is all bytes read. |

## Left out

- The camera setup, recording, and the start and shutdown order in `main` (server.py:210-259). These are hardware and thread orchestration.
- `BroadcastOutput` (server.py:138-161): the avconv process, its arguments, and writing and closing its stdin. The process appears only as per-iteration `(read, exited)` observations.
- The `finally: stdout.close()` of the broadcast loop (server.py:178-179). This is pipe I/O.
- The `manager.broadcast` fan-out to the connected viewers. The model stops at the list of chunks handed to it.
- Broadcast.Loop: the real loop blocks on each read. Over a finite observation sequence that has no end of stream, the model stops when the observations run out and reports no stop.
- The WebSocket and WSGI handler overrides (server.py:182-208). They are glue for a foreign library.
- Locks, threads, and the race between the watchdog and `/move` (server.py:58, server.py:113, server.py:122-126). Each request and each check of the rule is one atomic step.
- Actuator.Watchdog: only the rule is modelled. The loop in `MotorHandler` is never started (server.py:105, server.py:124-126). `Session` events named `Tick` show what the rule would do if it ran.
- The `index.html` template substitution (server.py:88-91) and reading the two files from disk (server.py:127-130). The resulting texts are inputs.
- Requests on which `urlparse` raises (server.py:44), such as the request line `GET http://[ HTTP/1.1`, whose netloc `[` is an invalid IPv6 literal. `do_GET` then aborts before any route test and sends no response. The model's `Request` always carries a parsed path, so these requests are excluded.
- `urlparse` and `parse_qs` themselves. Their results are request fields. `Group` models only the grouping into value lists and the dropping of blank values, not the `&` splitting or percent-decoding.
- The `Server` and `Date` headers that `send_response` adds. The format of `date_time_string` is also left out: `Last-Modified` carries the clock reading itself.
- Control.Error: the HTML of the library's error page is left out, and so are its `Content-Type` and `Content-Length` headers. The body is kept as the code and the message.
- Python floats: time is an exact `real`, with no rounding.
- The starting motor state. `Actuator.Initial` assumes both channels are stopped, and `last_move` starts at 0 (server.py:123).
