# Jarvis voice relay — a Dafny model of its deterministic core

The script `jarvis.py` is a voice assistant for Home Assistant. It waits for the
wake word "jarvis" and checks that the hub answers. It then listens for a spoken
command and passes the transcript to a language model (Gemini). The model's JSON
reply is a list of actions, and the script carries them out: service calls to the
hub's REST API, or spoken chat replies. Most of the script is I/O. This project
models the logic between those calls and proves what it promises:

- **Microphone discovery** (`get_mic_indices`). The speech-recognition library and
  the wake-word recorder each list the device names. In each list the script takes
  the first name that contains the configured substring. If either list has no
  match, or listing it raised, the pair `(3, 1)` is used
  (`mic_discovery.dfy`, imperative: two `for` scans with `break`).
- **Fence cleaning** of the model's reply. Every "```json" is removed, then every
  "```", then surrounding whitespace is stripped. A failed model call or a failed
  JSON parse gives "no decision" (`intent.dfy`, pure). This file also renders the
  device catalogue into the prompt. The Python string built-ins used are modelled
  in `py_str.dfy`: substring `in`, `replace(p, "")`, `strip()` over the characters
  `str.isspace()` accepts, and `join`.
- **Service-call requests** (`call_ha_service`). The URL is
  `<HA_URL>/api/services/<domain>/<service>`. The headers hold the bearer token.
  The body starts as `{"entity_id": e}` and is updated with the extra fields
  (`home_assistant.dfy`).
- **The main loop** (`dispatch.dfy`). It is modelled by the effects it performs:
  `Speak`, `Post`, `Pause`, `Listen`, `Think` (the resolver is consulted) and
  `Terminate`. `PlanCycle` specifies one pass of the loop body. `RunCycle` is that
  body as a method that appends to the effect list and loops over the actions.
  `RunLoop` is the `while True` loop over frames, left by `break` on a stop phrase.

Two behaviours of the source worth knowing (the model follows them):
- A failed resolution (model error or malformed JSON) produces no spoken apology.
  The loop just resumes watching (jarvis.py:234).
- The confirmation spoken before a service call is "Executing <service>." and does
  not name the domain (jarvis.py:246).

Python details kept in the model:
- `action.get(key)` on a missing key gives None. An f-string renders None as
  "None", so `Speak("Executing None.")` is possible, and the URL may hold a "None"
  segment. A missing `entity_id` is sent as JSON `null`.
- `if command:` treats an empty transcript like no transcript.
- `{}` as a decision is a dict, so it is wrapped into `[{}]`. That action has no
  type and does nothing.

## Model

| member | source | states |
|---|---|---|
| PyStr.Contains | jarvis.py:51 | definition of `t in s`: `t` is a prefix of `s` or of some suffix of `s` |
| PyStr.Join | jarvis.py:79 | definition of `sep.join(parts)`: the parts in order with `sep` between neighbours |
| Intent.Clean | jarvis.py:120 | definition of the cleaning expression: remove every "```json", then every "```", then strip |
| Intent.DeviceListText | jarvis.py:79 | definition of the device list: one "- name (entity_id)" line per catalogue entry, joined by newlines |
| HomeAssistant.ServiceUrl | jarvis.py:143 | definition of the URL: base + "/api/services/" + domain + "/" + service, with None rendered "None" |
| HomeAssistant.Headers | jarvis.py:144 | definition of the headers: bearer-token Authorization and JSON content type |
| HomeAssistant.ServiceBody | jarvis.py:146-148 | definition of the body key by key: `entity_id` plus the extra keys, extra values winning |
| Dispatch.Normalize | jarvis.py:230-234 | definition of the action list: an object becomes a one-element list, a list stays, no decision is empty |
| Dispatch.SourceExtra | jarvis.py:242-244 | definition of `extra`: `{"source": v}` when the action has `source`, else empty |
| Dispatch.ActionEffects | jarvis.py:236-257 | definition of one action: announce, post and pause for `call_service`; speak the reply for `chat`; nothing otherwise |
| Dispatch.DispatchAll | jarvis.py:235-257 | definition of the action loop: each action's effects concatenated in list order |
| Dispatch.PostRequest | jarvis.py:141-151 | definition of the request a post sends: URL, headers and body built from the post's fields |
| Dispatch.PlanCycle | jarvis.py:208-264 | definition of one loop pass: nothing without a wake; the apology if the hub is down; else pause and listen, then goodbye and terminate on a stop phrase, or consult the resolver and carry out its actions on a non-empty command |
| Dispatch.PlanSession | jarvis.py:204-264 | definition of the loop over frames: each frame's cycle in turn, ending after the first one that terminates |
| PyStr.ContainsIff | jarvis.py:51 | Python's substring test `t in s` holds exactly when `t` occurs at some index of `s` |
| PyStr.RemoveAll | jarvis.py:120 | `s.replace(p, "")` never lengthens the string, and leaves a string without `p` unchanged |
| PyStr.RemoveAllKeepsPrefix | jarvis.py:120 | a prefix holding no character of the marker's first letter passes through `replace(p, "")` untouched |
| PyStr.StripBounds | jarvis.py:120 | `strip()` keeps one slice: everything outside it is whitespace, and the slice is empty or starts and ends with non-whitespace |
| PyStr.Strip | jarvis.py:120 | the stripped text is no longer than the input, neither starts nor ends with whitespace, and is empty exactly when the input is all whitespace |
| PyStr.StripIdempotent | jarvis.py:120 | stripping twice is stripping once |
| PyStr.JoinCountsSeparators | jarvis.py:79 | `"\n".join(parts)` of parts without newlines holds exactly one newline fewer than there are parts |
| Intent.NoFenceAfterRemoval | jarvis.py:120 | after `.replace("```", "")` no "```" is left, even where removals bring backticks together |
| Intent.CleanLeavesNoFence | jarvis.py:120 | the cleaned reply contains neither "```json" nor "```" |
| Intent.CleanWithoutFence | jarvis.py:120 | a reply holding no "```" (single or double backticks allowed) is only stripped by the cleaning |
| Intent.ClosingFenceRemoved | jarvis.py:120 | text without "```" followed by one closing "```" comes back unchanged once fences are removed |
| Intent.JsonFenceBeforeClosing | jarvis.py:120 | an opening "```json" in text followed by a closing "```" can only lie inside that text |
| Intent.FencesRemovedFromBlock | jarvis.py:120 | removing both markers from a "```json … ```" block around fence-free content leaves exactly that content |
| Intent.CleanFencedBlock | jarvis.py:120 | a "```json … ```" block cleans to the same text as its content, for any content holding no "```" |
| Intent.ResolveIntent | jarvis.py:116-124 | a failed model call gives no decision; otherwise the decision is the parse of the cleaned reply, with a failed parse giving none |
| Intent.ResolveIgnoresFence | jarvis.py:120-121 | fenced and unfenced replies with the same JSON text, holding no "```", resolve to the same decision |
| Intent.DeviceListOneLinePerDevice | jarvis.py:79 | the prompt's device list has exactly one line per catalogue entry |
| MicDiscovery.FindFirstMatch | jarvis.py:49-54 | the scan finds the smallest index whose name contains the target, and finds none exactly when no name contains it |
| MicDiscovery.GetMicIndices | jarvis.py:41-71 | both indices are the first matches in their own lists when both lists match; otherwise the result is exactly (3, 1), even if the other list matched |
| HomeAssistant.CallHaService | jarvis.py:141-148 | URL is base + "/api/services/" + domain + "/" + service; body keys are `entity_id` plus the extra keys; extra values win; `entity_id` keeps the entity unless overridden |
| HomeAssistant.BodyWithoutExtra | jarvis.py:146-148 | with no extra data (None or `{}`) the body is exactly `{"entity_id": entity}` |
| Dispatch.RunCycle | jarvis.py:208-264 | the loop body performs exactly the planned effects, and leaves the loop exactly on a stop phrase after a wake with a healthy hub |
| Dispatch.CarryOut | jarvis.py:235-257 | the `for action in decision` loop produces exactly the effects of the actions, one after the other in list order |
| Dispatch.DispatchAllAppend | jarvis.py:235 | carrying out two action lists one after the other is carrying out their concatenation: actions run in list order |
| Dispatch.DispatchAllStep | jarvis.py:235-257 | each further action appends exactly its own effects |
| Dispatch.DispatchOnlyActs | jarvis.py:235-257 | carrying out actions never listens, consults the resolver or terminates |
| Dispatch.UnreachableOnlyApology | jarvis.py:213-261 | after a wake with an unreachable hub, "Home Assistant is unreachable." is the only effect |
| Dispatch.ListensIff | jarvis.py:208-217 | the loop listens exactly when the wake word was detected and the hub answered |
| Dispatch.ThinksIff | jarvis.py:217-228 | the resolver is consulted exactly when, after a wake and a healthy hub, a non-empty non-stop transcript was heard |
| Dispatch.TerminatesIff | jarvis.py:219-221 | the cycle terminates exactly on a stop phrase after a wake with a healthy hub, and then its effects end with "Goodbye." and Terminate |
| Dispatch.StopIgnoresResolver | jarvis.py:219-228 | on a stop phrase the effects do not depend on the resolver |
| Dispatch.SilenceDoesNothing | jarvis.py:223-259 | with no transcript, or an empty one, nothing happens after listening |
| Dispatch.NoDecisionNoAction | jarvis.py:228-234 | no decision, or an empty list, speaks nothing and posts nothing |
| Dispatch.SingleObjectAsList | jarvis.py:231-232 | a single-object decision is carried out exactly as the one-element list holding it |
| Dispatch.PostsOfAction | jarvis.py:239-257 | a `call_service` action posts exactly one call; chat and unknown actions post none |
| Dispatch.PostsInActionOrder | jarvis.py:235-257 | the posted calls are exactly the calls of the `call_service` actions, in list order; an earlier post's outcome does not stop later ones |
| Dispatch.PostsCarryOnlySource | jarvis.py:242-244 | every posted call carries at most the `source` key as extra data |
| Dispatch.UnknownActionsSkipped | jarvis.py:236-257 | dropping actions of unknown type changes nothing |
| Dispatch.ServiceCallBody | jarvis.py:242-252 | a service call's body is `entity_id` plus, exactly when the action has one, its `source` verbatim |
| Dispatch.OneServiceCallCycle | jarvis.py:239-253 | a command resolved to one service call yields Think, the spoken "Executing <service>.", the post and a pause, in that order |
| Dispatch.KitchenLightScenario | jarvis.py:239-253 | "turn off the kitchen light" announces "Executing turn_off.", posts to switch/turn_off with only the entity, then pauses |
| Dispatch.OpenYouTubeScenario | jarvis.py:239-253 | "open youtube" posts to media_player/select_source with the TV entity and source "YouTube" |
| Dispatch.TerminateIsLast | jarvis.py:204-221 | over any run of frames, Terminate occurs at most once and is then the last effect |
| Dispatch.RunLoop | jarvis.py:204-264 | the loop over frames performs exactly the planned effects, stopping after the first stop phrase |

## Left out

- Audio capture and wake-word detection (PvRecorder, pvporcupine, the microphone stream, Google speech recognition, the lower-casing of its result). These are hardware and library calls. The wake-word result, the transcript and the device-name lists are inputs.
- The Gemini call and the prompt text. The model's reply is an input (None when the call raised), and so is the JSON parser (None when parsing raised).
- Decisions that parse to JSON other than an object or a list of objects. The decision type only admits objects with string values, and so does not capture the following:
  - A falsy value (`0`, `false`, `""`, `null`) is skipped by `if decision:` (jarvis.py:234), like no decision.
  - A truthy number or `true` makes `for action in decision` raise, because it is not iterable (jarvis.py:235).
  - A non-empty string, or a list element that is not an object, makes `action.get` raise (jarvis.py:236). For a string this happens at its first character. In a list, the actions before the bad element have already been carried out.
  - That exception is not caught (only `KeyboardInterrupt` is, jarvis.py:266), so the process ends.
- Sending requests and the health check itself (`requests.get` and `requests.post`, jarvis.py:128-154), text-to-speech and the confirmation sound. The hub's health is an input. A post is an effect value, and `PostRequest` gives the request it sends. The True/False result of `call_ha_service` is not modelled because the loop ignores it.
- `time.sleep` durations. Each sleep is a `Pause` effect.
- Stopping and restarting the recorder around each cycle, environment loading, the start-up checks and exits, the start-up greeting, `KeyboardInterrupt` handling and resource cleanup (jarvis.py:13-37, 174-203, 266-270). These are configuration and process plumbing.
- Console output (`print`, jarvis.py:45-68, 123, 130, 209, 224-225, 259, 263). It has no effect on the hub or on what is spoken.
- The wake-word sensitivity 0.7, a floating-point setting of the engine.
