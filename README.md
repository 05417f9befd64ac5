# PFT analysis tool: fence cleaning and the session record

The application is a Streamlit page that reads a Pulmonary Function Test (PFT)
report. It sends the report to a hosted vision model to extract the values,
lets the user check and edit them in a form, and sends them to a second hosted
model, which writes the clinical interpretation. The only deterministic logic
in the program sits around those calls. This project models that logic:

- `clean_json_string` (module `CleanJson`) takes the extractor's reply and
  removes Markdown code fences from it before JSON parsing. If the reply holds
  a tagged fence "```json", every "```json" is deleted and then every "```".
  Otherwise, if it holds a bare fence "```", every "```" is deleted. In all
  cases surrounding whitespace is then trimmed. The Python string operations
  it relies on are modelled in module `PyStr` over `string` (`seq<char>`):
  `p in s` is `Contains`, `s.replace(p, "")` is `DeleteAll`, and `s.strip()` is
  `Strip`.
- The session's PFT record (module `PftRecord`) is a dictionary from field name
  to number. It starts with nine fields at 0.0. It is updated in place by
  `dict.update` with the extractor's answer. The verification form overwrites
  it field by field on every page run. Before analysis, it counts as "empty"
  when FEV1_FVC and FVC_pred are both zero. Class `PftSession` holds the
  record as a `map<string, real>` field. `Merge`, `AcceptExtraction`,
  `SetField` and `ApplyForm` update that field, and `IsEmpty` is `LooksEmpty`
  of it. Functions over `Record` values state what those updates compute,
  and the lemmas about them state what the code promises.

The program has no rule-based interpretation. There is no Obstructive /
Restrictive / Mixed classifier, no severity table and no differential
diagnosis. The thresholds appear only as prose in the prompt sent to the
analysis model (app.py:117-120). The model therefore follows the code and
contains none of them. The same goes for the absent-versus-zero
distinction: the code does not make it. Every field defaults to 0.0, and the
emptiness test treats zero as "not entered". The model reproduces exactly
that behaviour.

## Model

| member | source | states |
|---|---|---|
| CleanJson.CleanJsonString | app.py:54-60 | The tagged fence is checked before the bare one, and deletion comes before trimming. The result is never longer than the reply and never begins or ends with whitespace. |
| CleanJson.DeleteFenceLeavesNoFence | app.py:57-59 | After every "```" is deleted, no "```" remains, even where a deletion brings backticks from both sides of it together. |
| CleanJson.NoFenceNoTaggedFence | app.py:56-58 | A string without "```" has no "```json" either, so the bare-fence test subsumes the tagged one. |
| CleanJson.CleanRemovesTaggedFences | app.py:56-57 | If the reply holds "```json", the result holds neither "```json" nor "```". Letters "json" can still survive: deleting "```json" can form a new "```json", whose backticks only the "```" pass deletes ("```j```jsonson" cleans to "json"). |
| CleanJson.CleanRemovesBareFences | app.py:58-59 | If the reply holds "```" but not "```json", the result is the trimmed reply with all "```" deleted, and it holds no "```". |
| CleanJson.CleanWithoutFenceOnlyStrips | app.py:56-60 | A reply without "```" passes through both tests untouched and is only trimmed. |
| CleanJson.CleanLeavesNoFence | app.py:54-60 | For every reply, the result holds no "```". |
| CleanJson.CleanOnlyDeletes | app.py:54-60 | The result is a subsequence of the reply (characters are only deleted), so its length is at most the reply's. |
| CleanJson.CleanIdempotent | app.py:54-60 | Cleaning a cleaned reply returns it unchanged. |
| PyStr.Contains | app.py:56-58 | Python's `p in s`. A string that starts with `p` contains it, and `p` fits only in a string at least as long. |
| PyStr.ContainsIffOccurrence | app.py:56-58 | `p in s` holds if and only if some suffix `s[i..]` of `s` starts with `p`. This is the position-based reading of substring membership. |
| PyStr.WhitespaceClasses | app.py:60 | The ASCII blanks (space, tab, line feed, vertical tab, form feed, carriage return) are whitespace for `strip()`. No visible ASCII character is, so trimming never removes a backtick, a letter, a digit or a JSON delimiter. |
| PyStr.DeleteAll | app.py:57-59 | `replace(p, "")` with a non-empty `p` removes the leftmost non-overlapping occurrences and never lengthens the string. |
| PyStr.DeleteAllChangesIffContains | app.py:56-59 | `replace(p, "")` changes the string if and only if `p in s`. When it does, the result is strictly shorter. |
| PyStr.DeleteAllIsSubsequence | app.py:57-59 | `replace(p, "")` only deletes characters: the result is a subsequence of the input. |
| PyStr.DeleteAllIdempotentWhenClean | app.py:57-59 | If one deletion pass leaves no occurrence, a second pass changes nothing. |
| PyStr.StripLeading | app.py:60 | The leading part of `strip()` keeps a suffix of the input. Everything before it is whitespace, and it does not begin with whitespace. |
| PyStr.StripTrailing | app.py:60 | The trailing part of `strip()` keeps a prefix. Everything after it is whitespace, and it does not end with whitespace. |
| PyStr.Strip | app.py:60 | `strip()` never lengthens the string, and what it returns neither begins nor ends with whitespace. |
| PyStr.StripIsSlice | app.py:60 | `strip()` returns a contiguous slice `s[i..j]` of the input. Everything before `i` and from `j` on is whitespace, so nothing inside the text is touched. |
| PyStr.StripIsSubsequence | app.py:60 | `strip()` only deletes characters. |
| PyStr.StripKeepsAbsence | app.py:60 | Trimming cannot create an occurrence of a fence. |
| PyStr.StripFixesTrimmed | app.py:60 | A string that neither begins nor ends with whitespace is returned unchanged by `strip()`. |
| PyStr.StripIdempotent | app.py:60 | `strip()` applied twice equals `strip()` applied once. |
| PftRecord.GetOr | app.py:229-243 | `dict.get(k, d)` returns the stored value when `k` is present. Otherwise it returns the default: the result is either `d` or a value in the record. |
| PftRecord.Prefilled | app.py:229-243 | Each of the nine `value=` arguments is `get(k, 0.0)` for its own key `k`. |
| PftRecord.LooksEmpty | app.py:253 | The guard holds exactly when FEV1_FVC and FVC_pred both still have the value a fresh record gives them (0.0). |
| PftRecord.DefaultRecord | app.py:44-50 | A fresh record has exactly the nine keys FEV1, FEV1_pred, FVC, FVC_pred, FEV1_FVC, TLC, TLC_pred, DLCO and DLCO_pred, each 0.0. |
| PftRecord.Update | app.py:216 | `dict.update` sets every supplied key to the supplied value and leaves every other key's value unchanged. The keys afterwards are the old ones plus the supplied ones. |
| PftRecord.FormRecord | app.py:229-243 | The form's nine inputs give a record with exactly the nine keys. The FEV1/FVC and FVC % predicted inputs land on FEV1_FVC and FVC_pred. |
| PftRecord.FreshRecordLooksEmpty | app.py:43-50 | A fresh record holds the nine fields and counts as empty under the test of app.py:253. |
| PftRecord.UpdateKeepsFields | app.py:216 | A merge never loses one of the nine fields, whatever the extractor returned. |
| PftRecord.PrefilledShowsStoredValues | app.py:229-243 | When the record holds the nine fields, every form input starts from the stored value. The `.get(..., 0.0)` default is never used. |
| PftRecord.UneditedFormKeepsRecord | app.py:229-243 | A page run on which nobody edits the form leaves the record exactly as it was. |
| PftRecord.AssignmentsAreUpdate | app.py:229-243 | The nine per-key assignments in sequence equal one update with the form's record. |
| PftRecord.EmptinessReadsTwoFields | app.py:253 | Two records that agree on FEV1_FVC and FVC_pred get the same emptiness verdict, whatever their other fields hold. |
| PftRecord.FormDecidesEmptiness | app.py:229-253 | After the form has run, the record counts as empty if and only if the FEV1/FVC and FVC % predicted inputs are both zero. |
| PftRecord.MergeAndEmptiness | app.py:216-253 | A merge that supplies neither guard field leaves the verdict unchanged. A merge that supplies both decides it: empty if and only if both supplied values are zero. |
| PftRecord.PftSession.constructor | app.py:43-50 | The session starts with the default record. |
| PftRecord.PftSession.Merge | app.py:216 | The record is updated in place: supplied keys take the supplied values, other keys keep theirs, and any extra keys from the extractor are added. The nine fields stay present. |
| PftRecord.PftSession.AcceptExtraction | app.py:214-216 | The extractor's answer is merged only when there is one and it is non-empty (Python truthiness); otherwise the record is unchanged. |
| PftRecord.PftSession.Prefill | app.py:229-243 | The value a form input starts from is the stored value of its field. It is the same value `Prefilled` gives that field. |
| PftRecord.PftSession.IsEmpty | app.py:253 | The session's guard holds exactly when its FEV1_FVC and FVC_pred are both zero. |
| PftRecord.PftSession.SetField | app.py:229-243 | One form assignment replaces that key's value and changes nothing else. |
| PftRecord.PftSession.ApplyForm | app.py:229-243 | The nine assignments leave the record equal to the old record updated with the form's values, with the same key set. |
| PftRecord.ExtractThenAnalyse | app.py:43-253 | Over a session (create, merge an extraction, run the form, run it again and test), the emptiness verdict depends only on the two guard values in the last form run. |

## Left out

- The two hosted-model calls, their prompts and model names (app.py:62-99, 101-141) are network calls to a foreign library. The extractor's answer becomes the `Option<Record>` parameter of `AcceptExtraction`: `None` stands for the error path at app.py:97-99 and for a reply that parses to JSON `null`.
- `json.loads` (app.py:95) is a library parser. The model takes the parsed object as a `map<string, real>`. Two kinds of parse result are therefore not modelled.
  - A result that is not an object. A falsy one (`[]`, `0`, `""`, `false`, `null`) is never merged (app.py:215); in the model that is `None` or the empty map. A truthy non-object either makes `.update` at app.py:216 raise or, for a list of key/value pairs, is merged like a dictionary.
  - An object with non-numeric values. `float(...)` at app.py:229-243 coerces numeric strings such as "75.5" and booleans. It raises on `null`, other strings, lists and objects.
- PDF and image conversion (app.py:143-160) is I/O through foreign libraries.
- All Streamlit presentation is left out: page setup, CSS, sidebar, uploader, buttons, spinners, messages, the API-key checks, the stored analysis text and the disclaimer (app.py:9-40, 51-52, 162-212, 217-227, 245-252, 254-269). The emptiness guard at app.py:253 is modelled. What the number inputs return is the `FormInput` parameter; Streamlit's widget state is not modelled.
- Floating-point numbers and the `float(...)` coercions are left out. Values are `real`, since only equality with zero is ever tested (app.py:253).
- Dictionary insertion order is left out. It matters only to `json.dumps` in the prompt (app.py:115), and a `map` has no order.
- PyStr.DeleteAll: requires a non-empty pattern. Python's `replace` with an empty pattern, which inserts between characters, is not modelled because the code only ever deletes the two fence literals.
- PyStr.IsWhitespace: lists the code points CPython's `str.isspace` accepts under current Unicode data. It abstracts `strip()`'s whitespace test, and differences between Unicode versions are not modelled.
