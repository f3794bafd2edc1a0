# GPS sensor client — verified model of its core logic

This project models the sequential logic under the PyQt screens of a GPS
sensor monitoring client, and proves properties of it in Dafny.

- **NTRIP client** (`ntrip_client.py`). It stores the caster address, the login and the
  mount point. It computes the HTTP Basic credentials: Base64 (section 4 of RFC 4648)
  of the UTF-8 bytes of `user:password` (section 2 of RFC 7617). It sends the request
  with the exact byte layout of the source and accepts the session when the first reply
  contains `ICY 200 OK`. It frames NMEA sentences with CRLF. The socket is an abstract
  byte sink and a queue of chunks the caster delivers.
- **Marker overlay** (`marker_overlay.py`). This covers the stored map parameters and
  `update_markers`: the tri-state gray/green/red colour, the inclusive on-screen bounds
  test, skipping sensors without a fix, and the projection `_gps_to_screen`. The
  floating-point library functions are uninterpreted; the reference point projecting
  to a zero offset is proved exactly.
- **Static map client** (`staticMap.py`). There is a `StaticMap` class with its `params`
  dictionary and marker-string list, its setters and getters, `addMarker` (the
  marker-string serialiser), `clearMarkers` and `update_markers`.
- **Marker manager** (`marker_manager.py`). It rebuilds the markers of a shared `StaticMap`.
- **Pan/zoom controllers** (`map_view_controller.py` and the second controller in
  `staticMap.py`). Each is a state machine over `last_pos`, `is_dragging`, `is_zooming`,
  the zoom timer and the update callback. The two variants keep their own constants: a
  300 ms debounce and pan factor 0.5, against 100 ms and 0.3.
- **Sensor registry** (`sensor_list_widget.py`). `sensor_items` maps each IP to the texts
  of its child rows, and the tree rows are kept in display order.
- **Configuration dialog** (`config_manager.py`). It fills the form from the loaded
  configuration (`populate_fields`), covers `add_sensor`, `get_current_data` (channel
  labels and the port parse), `save_config` (merging three keys into the loaded
  dictionary) and `ok_clicked`/`get_result`. The sensor list's rows are a sequence of
  texts; deleting one is `delete_list_widget.py`'s delete handler.

Shared modules:

- `Wrappers`: Option and Result.
- `Text`: Python's `in`, `split`, `strip`, `str(int)` and `int(str)`.
- `Utf8`: `str.encode` and strict `bytes.decode`.
- `Base64`.
- `Geodesy`: the projection.
- `Numerics`: `2 ** n`, and `int()` truncating toward zero.
- `Viewport`: the zoom clamp and the pan arithmetic of both controllers.
- `Telemetry`: the sensor, fix and power dictionaries.
- `Listing`: the "append what each element yields" loop shape of the three marker builders.

Python floats are idealised as exact reals. Python's ints are unbounded, like Dafny's,
so no width is modelled.

## Model

| member | source | states |
|---|---|---|
| NtripClient.NtripClient.constructor | ntrip_client.py:7-14 | every field (host, port, user id, password, mount point, socket, auth) starts as `None` |
| NtripClient.NtripClient.SetHost | ntrip_client.py:16-18 | stores the address and port; no other field changes |
| NtripClient.NtripClient.SetLoginInfo | ntrip_client.py:20-22 | stores the user id and password; no other field changes, so an `auth` computed earlier is not refreshed |
| NtripClient.NtripClient.SetMountpoint | ntrip_client.py:24-26 | stores the mount point and sets `auth` to `BasicAuth` of the login stored at that moment; host, login and socket are unchanged |
| NtripClient.BasicAuthDecodes | ntrip_client.py:26 | the token decodes (Base64, then UTF-8) back to `f"{user_id}:{user_pw}"`; when the user id has no colon, the first colon lies right after it and splits the text back into user id and password |
| NtripClient.BasicAuthHasNoCR | ntrip_client.py:26 | the token never contains a carriage return, so it cannot break the header line |
| Base64.EncodeLength | ntrip_client.py:26 | the encoding of n bytes has length 4·⌈n/3⌉ |
| Base64.EncodeCharacters | ntrip_client.py:26 | a character of the encoding is `=` exactly when it is among the last `(3 - n % 3) % 3`; every other character is from the RFC 4648 alphabet |
| Base64.EncodePadded | ntrip_client.py:26 | the same layout as one predicate, by induction over the three-byte groups, with the padding no longer than the encoding |
| Base64.SextetValue | ntrip_client.py:26 | an alphabet character's 6-bit value is below 64 and maps back to that same character |
| Base64.QuantumDecodes | ntrip_client.py:26 | the four characters for three bytes decode to those bytes, whether the group is in the middle or last |
| Base64.FinalOneDecodes | ntrip_client.py:26 | a final `xx==` group decodes to its one byte |
| Base64.FinalTwoDecodes | ntrip_client.py:26 | a final `xxx=` group decodes to its two bytes |
| Base64.DecodeEncode | ntrip_client.py:26 | the RFC 4648 decoder gives back exactly the encoded bytes, for every byte string |
| Utf8.EncodeChar | ntrip_client.py:26 | a character encodes to 1 to 4 bytes, and to a single byte equal to its code exactly when it is ASCII |
| Utf8.DecodeFirstEncodeChar | ntrip_client.py:41 | the bytes of one encoded character decode to that character and consume exactly its length, whatever bytes follow |
| Utf8.DecodeEncode | ntrip_client.py:41 | strict decoding of `s.encode()` succeeds and gives `s` back |
| Utf8.EncodeAppend | ntrip_client.py:54-55 | the encoding of a concatenation is the concatenation of the encodings |
| Utf8.EncodeAscii | ntrip_client.py:38 | ASCII text encodes to one byte per character, each equal to the character's code |
| NtripClient.RequestPieces | ntrip_client.py:32-36 | the request built by the five `msg +=` steps is the request line, the User-Agent, Authorization, Accept and Connection headers each ended by CRLF, then one more CRLF |
| NtripClient.RequestEndsWithBlankLine | ntrip_client.py:32-36 | the request ends with CRLF CRLF |
| NtripClient.RequestLayout | ntrip_client.py:32-36 | when neither mount point nor token contains CR, splitting the request at CRLF gives exactly its request line, four header lines and the blank line |
| NtripClient.HandshakeOutcome | ntrip_client.py:40-51 | a reply that is not UTF-8 raises the decode error; otherwise the outcome is true exactly when the text contains `ICY 200 OK` |
| NtripClient.EmptyReplyRejected | ntrip_client.py:40-51 | an empty reply gives false |
| NtripClient.HandshakeOutcomeOfText | ntrip_client.py:41-46 | for a reply that is UTF-8 text, the result is exactly whether the text contains `ICY 200 OK` |
| NtripClient.NmeaFrameLayout | ntrip_client.py:53-55 | the bytes written are the sentence's own bytes followed by exactly the two bytes CR LF, and they decode to `m + "\r\n"` |
| NtripClient.Receive | ntrip_client.py:57-58 | one read returns at most `max` bytes of the next chunk, keeps the rest queued in order, and returns nothing once the peer has sent everything |
| NtripClient.Socket.constructor | ntrip_client.py:29 | a new socket is unconnected, open, has sent nothing and will deliver the given chunks |
| NtripClient.Socket.Connect | ntrip_client.py:30 | records the (address, port) endpoint; nothing else changes |
| NtripClient.Socket.Send | ntrip_client.py:38 | on a connected, open socket the data is appended to what was sent; an unconnected or closed socket sends nothing and reports it |
| NtripClient.Socket.Recv | ntrip_client.py:40 | on a connected, open socket the result and the remaining queue are those of `Receive`; an unconnected or closed socket yields nothing |
| NtripClient.Socket.Close | ntrip_client.py:62 | the socket is closed; what was sent and what is queued are unchanged |
| NtripClient.NtripClient.Connect | ntrip_client.py:28-51 | stores the new socket first. A missing host or port raises TypeError, and a port outside 0-65535 raises OverflowError; in both cases the socket stays unconnected and nothing is sent. Otherwise the socket is connected to (host, port). Without `auth` it then raises TypeError and sends nothing. With `auth` it sends exactly the UTF-8 request and reads one chunk of at most 4096 bytes, and the result is `HandshakeOutcome` of that chunk. The stored fields are unchanged |
| NtripClient.NtripClient.SendNmea | ntrip_client.py:53-55 | appends exactly `NmeaFrame(m)` to what the socket has sent. Without a socket it raises AttributeError. On a closed socket, or one whose `connect` stopped before connecting, it raises OSError and sends nothing. The socket's endpoint and queue are unchanged |
| NtripClient.NtripClient.ReceiveRtcm | ntrip_client.py:57-58 | returns unchanged one read of at most 8192 bytes; errors as for `send_nmea`; what was sent and the endpoint are unchanged |
| NtripClient.NtripClient.Close | ntrip_client.py:60-62 | closes the socket if `connect` created one, leaving its data as it was; with no socket it changes nothing |
| Text.FindSpec | ntrip_client.py:46 | `Find` returns the first position where the pattern occurs, and `None` only when it occurs nowhere |
| Text.Contains | ntrip_client.py:46 | `pat in s` holds exactly when the pattern occurs at some position of `s` |
| MarkerOverlay.MarkerColour | marker_overlay.py:90-95 | gray (150,150,150) exactly for unknown power, green (0,200,0) exactly for on, red (200,0,0) exactly for off |
| Telemetry.GpsGet | marker_overlay.py:78 | `gps_data.get(ip)` is a fix exactly when the key is present and does not hold `None` |
| Telemetry.PowerGet | marker_overlay.py:79 | `power_status.get(ip)` is a value exactly when the key is present and does not hold `None` |
| MarkerOverlay.NoFixNoMarker | marker_overlay.py:78-82 | a sensor without a fix yields no marker, whatever its power state |
| MarkerOverlay.OverlayMarkers | marker_overlay.py:74-97 | when the update succeeds, markers come in sensor order, at most one per sensor. A sensor appears exactly when its fix projects inside `0 <= x <= width`, `0 <= y <= height`. Each marker carries that projected position, the colour of its power state and its channel as the label |
| MarkerOverlay.OverlayIgnoresUnfixed | marker_overlay.py:78-82 | adding a sensor without a fix changes neither the markers nor whether the division error is raised |
| MarkerOverlay.CentreLandsMidScreen | marker_overlay.py:102-117 | when the metres per pixel are non-zero, a fix at the map centre lands at `(int(width/2), int(height/2))`, which is `(width // 2, height // 2)` for a non-negative size |
| MarkerOverlay.ScreenOrientation | marker_overlay.py:114-115 | with a positive scale, further east is never further left and further north is never lower (north maps to smaller y) |
| MarkerOverlay.MarkerOverlay.constructor | marker_overlay.py:61-64 | no markers, centre (127.1054328, 37.3595963), zoom 10, size 800×600 |
| MarkerOverlay.MarkerOverlay.SetMapParams | marker_overlay.py:69-72 | stores exactly the given centre, zoom and size; the markers are unchanged |
| MarkerOverlay.MarkerOverlay.UpdateMarkers | marker_overlay.py:74-97 | the previous markers are discarded and the map parameters kept. It raises ZeroDivisionError exactly when the metres per pixel are zero and some sensor has a fix, and the list is then left empty. Otherwise the markers are `Overlay`'s list |
| Geodesy.ReferenceHasZeroOffset | marker_overlay.py:22-45 | the reference point converts to the offset (0, 0, 0) whatever the trigonometric and ellipsoid functions compute, since each difference `x - ref_x` subtracts two equal values |
| Geodesy.MetersPerPixelHalves | marker_overlay.py:47-53 | one zoom level more halves the metres per pixel |
| Geodesy.MetersPerPixelDecreases | marker_overlay.py:47-53 | where the cosine of the latitude is positive, the metres per pixel stay positive and strictly decrease from one zoom level to the next |
| Numerics.Trunc | marker_overlay.py:117 | `int(x)` rounds toward zero: the result is within 1 of `x`, on the zero side |
| Numerics.TruncMonotone | marker_overlay.py:117 | truncation never reverses the order of two values |
| Numerics.TruncHalf | marker_overlay.py:117 | `int(w / 2)` equals `w // 2` for a non-negative integer `w` |
| Numerics.Pow2 | map_view_controller.py:51 | `2 ** n` is positive for every integer exponent |
| Numerics.Pow2Succ | marker_overlay.py:52 | one more in the exponent doubles `2 ** n`, for either sign of `n` |
| Listing.FilterMap | marker_overlay.py:77-97 | the loop yields at most one value per element |
| Listing.FilterMapSources | marker_overlay.py:77-97 | the j-th result is the value of element `Sources[j]`, those positions increase, and a position is among them exactly when its element yields a value |
| Listing.FilterMapMember | marker_manager.py:9-26 | a value is in the result exactly when some element yields it |
| Listing.FilterMapNone | marker_overlay.py:81-82 | when no element yields a value the result is empty |
| StaticMap.MarkerLayout | staticMap.py:51-55 | when no argument contains `\|`, the marker string splits at `\|` into exactly `type:`, `size:`, `color:`, then `label:` only for a true label (`None` and `""` omit it), `pos:{lng} {lat}` and `viewSizeRatio:2.0` |
| StaticMap.MarkerColour | staticMap.py:116-121 | `"green"` exactly when `power_status.get(ip, False)` is true, `"red"` exactly otherwise, missing and `None` power included |
| StaticMap.StaticMarkersSpec | staticMap.py:111-131 | one marker per sensor with a fix, in sensor order, none for the others. Each is the `t`/`mid` marker at the sensor's fix, coloured by its power, labelled with its channel |
| StaticMap.StaticMap.constructor | staticMap.py:14-26 | no login; centre 127.1054328,37.3595963, level 10, `basic`, 1620×1080; no markers and no `markers` key |
| StaticMap.StaticMap.SetLoginInfo | staticMap.py:28-30 | stores id and key; params and markers unchanged |
| StaticMap.StaticMap.SetSize | staticMap.py:32-34 | changes only `w` and `h` |
| StaticMap.StaticMap.SetCenter | staticMap.py:36-37 | changes only `center` |
| StaticMap.StaticMap.SetZoom | staticMap.py:39-40 | changes only `level` |
| StaticMap.StaticMap.SetMaptype | staticMap.py:42-43 | changes only `maptype` |
| StaticMap.StaticMap.GetCenter | staticMap.py:45-46 | returns the stored centre |
| StaticMap.StaticMap.GetZoom | staticMap.py:48-49 | returns the stored level |
| StaticMap.StaticMap.AddMarker | staticMap.py:51-58 | appends the marker string at the end of `markers`, and `params["markers"]` becomes that list; nothing else changes |
| StaticMap.StaticMap.ClearMarkers | staticMap.py:60-63 | empties `markers` and removes the `markers` key if present, leaving every other parameter; the state after it depends only on the other parameters, so a second call changes nothing |
| StaticMap.StaticMap.UpdateMarkers | staticMap.py:111-131 | the new marker list is `StaticMarkers` of the arguments (nothing earlier survives); every parameter except `markers` and the login are unchanged |
| MarkerManager.MarkerManager.constructor | marker_manager.py:3-4 | keeps the given static map |
| MarkerManager.MarkerManager.UpdateMarkers | marker_manager.py:6-26 | the shared map's marker list becomes `StaticMarkers` of the arguments, cleared first; its other parameters and login are untouched |
| MarkerManager.ColoursAgreeWithOverlay | marker_manager.py:11-16 | a map marker is green exactly when the overlay would draw it green; every other power state, the unknown one included, gives red, so gray never occurs |
| MarkerManager.OverlaySensorsHaveMapMarkers | marker_manager.py:9-14 | every sensor the overlay draws also has a marker on the static map |
| Viewport.WheelZoomStep | map_view_controller.py:25-28 | a positive delta never takes the zoom above 20 and any other delta never below 1; from a level in [1,20] the zoom stays in range and moves one level in the wheel's direction, or stays put at that end of the range |
| Viewport.ZoomStaysInRange | map_view_controller.py:21-30 | a zoom in [1,20] stays in [1,20] after any sequence of wheel events |
| Viewport.ZoomStepsUndo | map_view_controller.py:25-28 | strictly inside the range, one step in and one step out undo each other, in either order |
| Viewport.PanScaleHalves | map_view_controller.py:51 | one zoom level more halves the pan distance per pixel |
| Viewport.PanTelescopes | map_view_controller.py:45-57 | two successive moves pan as far as one move over the whole distance |
| Viewport.PanReturns | map_view_controller.py:45-57 | dragging back to the start point restores the centre exactly |
| Viewport.PanDirection | map_view_controller.py:53-54 | dragging right moves the centre west and dragging down moves it north; no movement leaves it unchanged |
| MapViewController.MapViewController.constructor | map_view_controller.py:7-16 | not dragging or zooming, no last position, no callback, timer stopped |
| MapViewController.MapViewController.SetUpdateCallback | map_view_controller.py:18-19 | sets the callback; no other state changes |
| MapViewController.MapViewController.TriggerUpdate | map_view_controller.py:65-67 | the callback runs once if one is set, and otherwise nothing happens |
| MapViewController.MapViewController.HandleWheelEvent | map_view_controller.py:21-35 | sets the map's level to `WheelZoom` of its old level and changes no other map parameter. It sets `is_zooming`, starts the 300 ms timer and runs the callback once if set |
| MapViewController.MapViewController.OnZoomFinished | map_view_controller.py:37-38 | clears `is_zooming` only |
| MapViewController.MapViewController.ZoomTimerFires | map_view_controller.py:14-16 | the single-shot timer stops and `is_zooming` is cleared; nothing else changes |
| MapViewController.MapViewController.HandleMousePress | map_view_controller.py:40-43 | a left press records the position and starts dragging; any other button changes nothing |
| MapViewController.MapViewController.HandleMouseMove | map_view_controller.py:45-57 | with no last position nothing changes. Otherwise the centre moves by `Pan` with scale `0.5 / 2 ** (zoom - 1)` and the last position becomes the event's. Zoom and markers are unchanged and no update runs |
| MapViewController.MapViewController.HandleMouseRelease | map_view_controller.py:59-63 | a left release ends the drag, forgets the last position and runs the callback once if set; any other button changes nothing |
| StaticMap.MapViewController.constructor | staticMap.py:137-146 | as above, with the callback passed at construction |
| StaticMap.MapViewController.SetUpdateCallback | staticMap.py:148-149 | sets the callback; no other state changes |
| StaticMap.MapViewController.TriggerUpdate | staticMap.py:195-197 | the callback runs once if one is set |
| StaticMap.MapViewController.HandleWheelEvent | staticMap.py:151-165 | the same clamp as the first controller, with a 100 ms timer |
| StaticMap.MapViewController.OnZoomFinished | staticMap.py:167-168 | clears `is_zooming` only |
| StaticMap.MapViewController.ZoomTimerFires | staticMap.py:144-146 | the timer stops and `is_zooming` is cleared |
| StaticMap.MapViewController.HandleMousePress | staticMap.py:170-173 | a left press records the position and starts dragging; other buttons change nothing |
| StaticMap.MapViewController.HandleMouseMove | staticMap.py:175-187 | as the first controller, with scale `0.3 / 2 ** (zoom - 1)` |
| StaticMap.MapViewController.HandleMouseRelease | staticMap.py:189-193 | a left release ends the drag and runs the callback once if set |
| SensorListWidget.StateText | sensor_list_widget.py:168-176 | `State: Disconnected` exactly for `None`, `State: Detected` exactly for on, `State: Not detected` exactly for off |
| SensorListWidget.StateTextInjective | sensor_list_widget.py:166-176 | two power values give the same state text exactly when they are equal |
| SensorListWidget.GpsTextReplacesPlaceholder | sensor_list_widget.py:183 | whatever the number formatting gives, the new GPS text contains a line break and is never `GPS: Not available` |
| SensorListWidget.IndexOf | sensor_list_widget.py:155 | the position of the row is the first one holding the address |
| SensorListWidget.RemoveAt | sensor_list_widget.py:154-158 | taking out one row of a repetition-free list keeps every other row, in order, without repeats |
| SensorListWidget.SensorListWidget.constructor | sensor_list_widget.py:55-57 | an empty registry with no rows |
| SensorListWidget.SensorListWidget.AddSensor | sensor_list_widget.py:115-148 | an already registered IP changes nothing, so its original channel is kept. A new one gets `Channel: {channel}`, `State: Disconnected` and `GPS: Not available`, and its row goes last |
| SensorListWidget.SensorListWidget.OnDeleteClicked | sensor_list_widget.py:150-160 | a registered IP is removed from the registry and from its row position, and `sensor_deleted(ip)` is emitted once; an unknown IP changes nothing and emits nothing |
| SensorListWidget.SensorListWidget.UpdatePowerStatus | sensor_list_widget.py:162-176 | sets only that sensor's state text to `StateText(power)`; an unknown IP changes nothing |
| SensorListWidget.SensorListWidget.UpdateGps | sensor_list_widget.py:178-185 | sets only that sensor's GPS text; an unknown IP changes nothing |
| SensorListWidget.SensorListWidget.Clear | sensor_list_widget.py:187-189 | empties the registry and the rows; nothing is emitted |
| Text.StripEmptyIff | config_manager.py:158-160 | `strip()` is empty exactly when the text is whitespace only |
| Text.StripEnds | config_manager.py:158 | a non-empty `strip()` starts and ends with a non-space |
| Text.StripIsSlice | config_manager.py:158 | `strip()` is a contiguous slice of the text |
| Text.NatText | config_manager.py:173 | the decimal text of a number is non-empty digits with no leading zero |
| Text.ParseIntText | config_manager.py:183 | `int(str(i)) == i` for every integer |
| ConfigManager.WithSensor | config_manager.py:156-163 | blank input leaves the form alone. Otherwise the stripped input is appended as the last row, the input is cleared and no other field changes |
| ConfigManager.WithSensorStrips | config_manager.py:156-163 | the input is ignored exactly when it is whitespace only, and otherwise the one new row has no whitespace at either end |
| ConfigManager.GetMissing | config_manager.py:130-131 | `d.get(k)` is missing exactly when `k` is not a key |
| ConfigManager.Put | config_manager.py:200-202 | `d[k] = v` keeps an existing key in its place and adds a new key last |
| ConfigManager.GetPut | config_manager.py:200-202 | after `d[k] = v`, `k` holds `v` and every other key keeps its value |
| ConfigManager.PutKeys | config_manager.py:200-202 | the keys after assignment are the old keys plus the assigned one, old order kept |
| ConfigManager.PutDistinct | config_manager.py:174 | assignment never makes a key appear twice |
| ConfigManager.ChannelMapKeys | config_manager.py:166-174 | the keys of `sensors` are exactly the given addresses, each once |
| ConfigManager.ChannelMapLast | config_manager.py:166-174 | an address holds `ch{i+1}`, where i is its last position |
| ConfigManager.SensorsKeys | config_manager.py:166-174 | an address is a key of `sensors` exactly when some row strips to it, and no key repeats |
| ConfigManager.SensorsLastWins | config_manager.py:172-174 | an address listed in several rows gets the channel of the last of them |
| ConfigManager.PortValue | config_manager.py:183 | empty text gives 0; other text gives its integer parse, and ValueError exactly when it is not an integer |
| ConfigManager.PortValueText | config_manager.py:139 | the port text that `populate_fields` writes reads back as the same port |
| ConfigManager.CurrentDataShape | config_manager.py:176-191 | the data exists exactly when the port parses; the failure is ValueError. It has exactly the keys `naver_client{id,key}`, `ntrip_settings{host_address,host_port,user_id,user_pw,mount_point}` and `sensors_ip`, holding the form's texts, the parsed port and the `sensors` dictionary |
| ConfigManager.Section | config_manager.py:130-131 | for a dictionary configuration, the section is `d.get(key)` |
| ConfigManager.PopulateNaver | config_manager.py:129-133 | changes at most the two Naver fields; an absent section changes nothing; a present section that is not a dictionary raises AttributeError |
| ConfigManager.PopulateNtrip | config_manager.py:135-142 | changes at most the five NTRIP fields; same guards as above |
| ConfigManager.PopulateSensors | config_manager.py:144-147 | adds one row per key of `sensors_ip`, in order, and changes nothing else; absent changes nothing; a value without `keys()` raises AttributeError |
| ConfigManager.Populate | config_manager.py:125-147 | an empty or `None` configuration leaves the form empty; the input line is always empty afterwards |
| ConfigManager.PopulateOnlyPresent | config_manager.py:125-147 | a dictionary configuration fills only the blocks whose keys it has |
| ConfigManager.PopulateCurrentData | config_manager.py:125-147 | loading what `get_current_data` produced restores every text field. The port comes back as `str(int(text))` and the sensor rows as the keys of `sensors` |
| ConfigManager.ReloadedPort | config_manager.py:183 | after that reload, the port text parses to the same port |
| ConfigManager.MergeGet | config_manager.py:200-202 | saving replaces exactly the three section keys with the form's values; every other key keeps its value |
| ConfigManager.MergeKeys | config_manager.py:195-202 | saving keeps the existing keys in order, adds only missing section keys, and never repeats a key |
| ConfigManager.ConfigManager.Populated | config_manager.py:14-23 | the dialog holds the loaded configuration and the populated form; no result yet, not accepted |
| ConfigManager.ConfigManager.Open | config_manager.py:14-23 | construction fails with the exception `populate_fields` raises; otherwise a new dialog holds the configuration and `Populate`'s form, with no result |
| ConfigManager.ConfigManager.AddSensor | config_manager.py:156-163 | the form becomes `WithSensor` of the old form; nothing else changes |
| ConfigManager.ConfigManager.DeleteRow | delete_list_widget.py:69-72 | removes exactly the clicked row, keeping the others in order |
| ConfigManager.ConfigManager.GetCurrentData | config_manager.py:165-191 | the dictionary the loop builds equals `CurrentData(form)`, whose shape `CurrentDataShape` states |
| ConfigManager.ConfigManager.SaveConfig | config_manager.py:193-214 | a `None` configuration becomes `{}`. Then the three sections are merged in (`Merge`), or the ValueError/TypeError is reported and the configuration is left as it stood |
| ConfigManager.ConfigManager.OkClicked | config_manager.py:216-218 | stores the current data as the result and accepts; on a port error nothing changes and the error is reported |

## Left out

- Socket I/O: `socket.socket()`, `connect`, `send` and `recv` are an abstract socket object; name resolution, blocking, partial sends and network errors other than a closed or unconnected socket, a missing host or port and a port outside 0-65535 are not modelled.
- NtripClient.NtripClient.Connect: the `print` calls are not modelled.
- NtripClient.NtripClient.Connect: the socket is passed in rather than created, because object creation by the runtime is outside the model.
- The `__main__` blocks of `ntrip_client.py` and `sensor_list_widget.py` are not modelled. They are demonstration scripts, not core logic.
- The floating-point geodesy, because it is IEEE trigonometry: `math.sin`, `math.cos`, `math.radians`, `math.sqrt` and `geodetic_to_ecef` with the WGS84 constants are uninterpreted functions. Only the arithmetic that `ecef_to_enu`, `cal_meters_per_pixel` and `_gps_to_screen` do on their results is written out.
- Floats are exact reals. Rounding, NaN and infinities are not modelled.
- How a float is written as text is an uninterpreted function: `f"{lng} {lat}"` in marker strings, `f"{lat:.6f}"` in `update_gps`, and `str()` of lists and dictionaries in `populate_fields`.
- The `getCenter().split(",")` / `float` round trip is not modelled: the centre is stored as the pair of numbers `setCenter` formats.
- Qt painting, layout and widgets are not modelled, because they are drawing and display, not logic:
  - `paintEvent` and label drawing;
  - `setup_ui` and stylesheets;
  - fonts and colours of tree items;
  - `show()`, `raise_()`, `isVisible()`/`update()` and `resizeColumnToContents`;
  - `map_overlay_widget.py`.
- `delete_list_widget.py` is a thin wrapper over a `QListWidget`. Only its row list (a sequence of texts) and its delete handler are modelled.
- QTimer scheduling is an explicit "timer fired" event (`ZoomTimerFires`) plus the timer's running state and interval. Restarting a running timer is a state update, not a schedule.
- The update callback is a flag telling whether one is set, plus a count of its runs. What the callback does is outside these files.
- Qt event objects become plain arguments: the wheel delta, the button, the position.
- `StaticMap.getMapImage`, `_create_error_pixmap` and `pil2pixmap` are not modelled, because they are HTTP, PIL and Qt imaging.
- YAML file persistence is not modelled: `load_config`, `yaml.dump`, the directory creation in `save_config`, and the message boxes. The loaded configuration arrives as a value, and the `save_config` model ends at the in-memory merge.
- The `Yaml` type has no floats and no non-string keys, so configurations with those are outside the model.
- ConfigManager.ConfigManager.OkClicked: when `get_current_data` raises, Python propagates the exception out of the slot. The model returns it as a failure and leaves the dialog unchanged.
- ConfigManager.ConfigManager.GetResult: this accessor returns the stored `result_data` field and has no contract of its own; what that field holds is stated by `OkClicked`.
- ConfigManager.TextOf: PyQt's conversion of `None` to empty text in `setText` is taken as given, and any other non-string value is a TypeError.
- Text.ParseInt: Python's `int()` also accepts underscores between digits and non-ASCII decimal digits. The model accepts only ASCII digits with an optional sign and surrounding whitespace.
- The line edits' typing is not modelled: the form's fields are assigned directly. `list_ip.clear()` is the input field becoming empty.
- `packet_test.py` is not part of this model, because it is a threaded test server.
- The two pan/zoom controllers are kept as separate classes with their own constants, as the source has them.
