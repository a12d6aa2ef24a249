# Safe recovery agent: model of the request core

This project models the self-contained logic of the Flask service in
`app.py` of SafeRecoveryAgent. The service chats with a local language model
to decide whether a user is "verified", and then lets an agent account call
`swapOwner` on a Safe multi-signature wallet. Four pieces of that file are
modelled:

- `clean_output`, which strips Markdown code fences and whitespace from the
  model's answer (module `Text`). Whitespace is Python's `str.isspace`. The
  `$` anchor also matches before a final newline, and the model includes
  that case. It is then proved that this case never arises inside
  `clean_output`.
- the payload loop of `chat_with_llm`, which puts the system prompt first and
  then maps each turn `{role, text, images?}` to a message
  `{role, content, images?}` (module `Chat`, an imperative method with a loop
  invariant).
- the extraction of the answer from the reply, and the `/api/chat` check that
  refuses an empty conversation with 400 (module `Chat`).
- the `/api/switch_owner` check that refuses a missing or empty
  `new_address` with 400, and the argument triple
  `(SENTINEL, AGENT_ADDRESS, new_owner)` of the `swapOwner` call it builds
  (module `Safe`).

The network (the language model, the chain RPC) and `json.loads` are
function parameters. The agent's address, read from a file at start-up, is a
parameter too.

The design description of this system gives the owner swap much more than
the code does. It describes selecting the first non-agent owner, deriving
the predecessor in the owner list, refusing an address that is already an
owner, simulating the transaction, hashing the multisig transaction and a
"verified" gate in front of the swap. The code does none of this.
`switch_owner` always passes the sentinel as the previous owner and the
agent's own address as the owner to replace (`app.py:133-134`). Its nonce is
the agent account's transaction count, not the Safe's nonce (`app.py:137`).
No handler checks the conversation for "verified". The model follows the
code.

## Model

| member | source | states |
|---|---|---|
| `Text.SkipSpaces` | app.py:17 | how far `\s*` reaches: every character it passes is whitespace and the one it stops at is not |
| `Text.SkipSpacesBack` | app.py:18 | where the greedy `\s*` before a closing fence starts: all whitespace up to the fence, preceded by a non-space or the start |
| `Text.Strip` | app.py:17 | `str.strip()`: the result is trimmed and is the slice of the input after its leading whitespace, with only whitespace after it |
| `Text.StripLeadingFence` | app.py:17 | the result is a suffix of the input; without an opening fence nothing changes; with one, exactly the fence, a following `json` tag and the whitespace after them go, and the result does not start with whitespace |
| `Text.StripTrailingFence` | app.py:18 | a closing fence and the whitespace before it go, leaving a prefix that does not end with whitespace; a fence followed by one final newline goes and the newline stays; otherwise nothing changes |
| `Text.CleanOutput` | app.py:15-19 | the answer has no leading or trailing whitespace and is never longer than the input |
| `Text.StripTrimmed` | app.py:19 | stripping trimmed text changes nothing |
| `Text.LeadingFenceKeepsTrimmed` | app.py:17 | removing the opening fence from stripped text leaves trimmed text |
| `Text.TrimmedHasNoFinalNewline` | app.py:18 | stripped text never ends with a fence and a newline, so the second match of `$` never applies in `clean_output` |
| `Text.TrailingFenceKeepsTrimmed` | app.py:18 | removing the closing fence from trimmed text leaves a trimmed prefix |
| `Text.FencesRemovedFromTrimmed` | app.py:17-18 | on stripped text both fence removals together leave a trimmed contiguous slice |
| `Text.CleanOutputIsFenceRemoval` | app.py:15-19 | the final `strip()` never removes anything |
| `Text.CleanOutputIsSlice` | app.py:15-19 | `clean_output` only deletes: its answer is one contiguous slice of its input |
| `Text.CleanOutputWithoutFences` | app.py:15-19 | when the stripped input neither starts nor ends with a fence, `clean_output` is plain `strip()` |
| `Text.BothFences` | app.py:17-18 | with a fence at both ends, the answer is the slice between the whitespace after the opening fence (and tag) and the whitespace before the closing fence; it neither starts nor ends with whitespace, which fixes it |
| `Text.TaggedOpener` | app.py:17 | after a fence, a `json` tag is always taken along with the whitespace that follows it |
| `Text.TagTakenWithoutSpace` | app.py:17 | the `json` tag is taken even when no whitespace follows it |
| `Text.LeadingFenceRemovedOnce` | app.py:17 | only one opening fence goes: a second fence right after it survives |
| `Text.TrailingFenceRemovedOnce` | app.py:18 | only one closing fence goes: a second fence right before it survives |
| `Text.CleanTagWithoutSpace` | app.py:15-19 | `clean_output("```jsonV```")` is `"V"` |
| `Chat.BuildMessages` | app.py:26-40 | the payload has one more message than the history, starts with the system prompt, and message i+1 has the role and text of turn i, carrying its images exactly when the turn has a non-empty image list, copied unchanged |
| `Chat.PayloadIsUnique` | app.py:35-40 | the payload is determined by the history: two lists that both meet the payload description are equal |
| `Chat.LineEnd` | app.py:55 | the first line boundary of `splitlines()` at or after a position |
| `Chat.JsonText` | app.py:52-56 | the text handed to `json.loads` is the first line of the stripped reply body; it is empty only when the body is blank |
| `Chat.AgentMessage` | app.py:61 | a missing `message` or a missing `content` gives the empty string; otherwise the content itself |
| `Chat.ChatReplyAsWritten` | app.py:50-62 | the code as written: it raises exactly when the request failed; it gives the error with the reply body exactly when parsing failed; otherwise it gives the cleaned `message.content` |
| `Chat.UnreachableServerCrashes` | app.py:50-59 | as written, a failed request makes `chat_with_llm` raise instead of returning an error |
| `Chat.ChatReply` | app.py:50-62 | never raises; an error exactly when the request or the parsing failed, carrying the reply body when there is one; otherwise the cleaned, trimmed `message.content` (empty when missing) |
| `Chat.ChatReplyAgreesWhenAnswered` | app.py:50-62 | once the server has answered, the corrected and the written reply handling agree |
| `Chat.ChatWithLlm` | app.py:21-63 | sends a payload that meets the payload description and returns the corrected reply handling (`Chat.ChatReply`) of the server's answer to it, so a failed request gives the error dictionary instead of raising |
| `Chat.ApiChat` | app.py:69-78 | 400 and nothing sent exactly when the conversation is empty; otherwise the payload is sent; 200 with the cleaned answer exactly when `chat_with_llm` gives an answer, 500 otherwise; it uses the corrected reply handling |
| `Chat.Respond` | app.py:76-78 | a result holding an error is answered with 500 and carries that error; an answer is answered with 200 and carries the answer text; this step never gives 400 |
| `Chat.StatusSameAsWritten` | app.py:76-78 | the written and the corrected reply handling give `/api/chat` the same status codes, because the crash also ends in a 500 page |
| `Safe.SwapArguments` | app.py:129-134 | refused exactly when `new_address` is missing or empty; otherwise the call arguments are exactly `[SENTINEL, agent, new_address]` |
| `Safe.SwapTransaction` | app.py:137-144 | the transaction goes to the Safe, calls `swapOwner(address,address,address)` with the given call, uses gas 200000 and the chain's id and gas price, and takes the agent account's transaction count as nonce |
| `Safe.SwitchOwner` | app.py:121-149 | 400 exactly when `new_address` is missing or empty; a hash is returned only when the chain was read and the swap transaction with the sentinel, the agent and the new address was submitted and gave that hash |
| `Safe.RefusalSubmitsNothing` | app.py:129-131 | a refused request gives the same 400 whatever the chain and the submission would do, so no transaction is built or sent |
| `Safe.SwitchOwnerSubmitsSwap` | app.py:133-147 | the transaction goes to the Safe, calls `swapOwner(address,address,address)` with `(SENTINEL, agent, new_address)`, gas 200000, and the agent's transaction count as nonce; the answer is 200 exactly when its submission succeeds |

## Left out

- Chat.ChatWithLlm and Chat.ApiChat use the corrected reply handling (`Chat.ChatReply`). When the request fails, they return the error dictionary. The code as written raises `UnboundLocalError` there instead (see Findings). Only the status code is the same, 500 (`Chat.StatusSameAsWritten`).
- Flask routing, `send_from_directory` and `jsonify` are not modelled (`app.py:7`, `app.py:65-67`). Responses are reduced to their kind and status code.
- The error texts and the `raw_response` field (`json.dumps(data)`) are not modelled. An error carries only the reply body.
- `request.get_json()` returning no object, and so raising, is not modelled. A missing `conversation` key is the empty conversation, which behaves the same.
- Turns without `role` or `text` raise `KeyError` outside the `try`. They are not modelled, because every `Turn` has both.
- JSON values are modelled as strings. A `new_address`, `role`, `text` or image that is a number or another non-string JSON value is not covered.
- A parsed reply that is not an object, or whose `message` is not an object or whose `content` is not a string, raises outside the `try`. It is not modelled: `LlmReply` covers objects only.
- The HTTP call to the language model is the `post` parameter and `json.loads` is the `parse` parameter. The payload's constant `model` and `stream` fields and the debug `print`s are not modelled (`app.py:42-48`).
- Image upload, `secure_filename`, thumbnailing and base64 encoding are not modelled (`app.py:80-100`). This is file and image-library work.
- Loading `private_key.json` and `abi.json` is not modelled (`app.py:104-111`). The agent address is a parameter and the private key is not represented.
- The web3 work is not modelled in detail (`app.py:118-119`, `app.py:137-147`). Reads of the nonce, chain id and gas price are one optional `ChainView`. ABI encoding (including its address checks), signing and broadcast are the `submit` parameter. Only the fixed gas of 200000 and the nonce source are kept.
- Owner-list resolution, duplicate-owner refusal, simulation, multisig hashing and the "verified" gate are not modelled. The code does not have them.

## Findings

| source | as written | input that shows it | evidently intended | confidence | as-written member | corrected member |
|---|---|---|---|---|---|---|
| app.py:50-59 | when `requests.post` raises, the `except` clause reads `response.text`, but `response` was never bound; the handler raises `UnboundLocalError` and Flask answers with its own 500 page instead of the `{"error": ...}` dictionary | the language-model server is not running, so `requests.post` raises a connection error | return the error dictionary without a reply body | high, not executed | `Chat.ChatReplyAsWritten` (shown by `Chat.UnreachableServerCrashes`) | `Chat.ChatReply` |
