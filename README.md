# Puppets, personas and bot commands — a Dafny model

This project models the small keyed registries at the heart of the tulip
chat server's role-play features, and the validators and normalisers that
guard them:

- **Stream puppets** (`stream_puppets.dfy`). A stream puppet is a display
  identity that members of a puppet-mode stream can post as. The server keeps
  one `StreamPuppet` row per (stream, name). The class `PuppetTable` holds
  that table as a map keyed by (stream, name). `PuppetTable.Register` is the
  upsert that a puppet message triggers. Under Django's `update_or_create`,
  the defaults (avatar, colour, `last_used`, `created_by`) are written on the
  update path as well; the function then bumps `last_used` and re-applies a
  truthy avatar and a present colour. The autocomplete listing
  (`StreamPuppetList`) returns every puppet of a stream, each once, most
  recently used first. The handler read (`HandlerUserIds`) returns the
  active handlers of a list of puppets.
- **Personas** (`personas.dfy`). This covers the colour normaliser
  (`#RGB` to `#RRGGBB`) and the field constraints of the create and update
  endpoints. Those constraints follow the pydantic patterns: `\s` is Unicode
  White_Space, and `strip_whitespace` trims Unicode White_Space. The
  endpoints' own `str.strip()` also removes U+001C..U+001F (`text.dfy`).
  The model also covers the arguments the endpoints hand to the persona
  actions, the "nothing to change" short-circuit of update, and the
  realm-wide persona listing: at most 200 entries, newest first.
- **Bot commands** (`bot_commands.dfy`). This is the organisation-scoped
  command registry as its endpoint tests constrain it:
  - a name format, taken as `[a-z][a-z0-9_-]{0,31}`;
  - the options-schema validator: every option needs a non-empty name string
    and a type in {string, integer, boolean}, and names must be distinct;
    the first offending option is reported;
  - first-writer-wins registration, which returns a `created` flag;
  - deletion by the owning bot or a realm administrator only;
  - the realm-wide listing.
- **Client puppet cache** (`puppet_cache.dfy`). The class
  `StreamPuppetCache` holds one list per stream, the fetched set and the
  pending set. The asynchronous fetch is split into the call that issues the
  request (`FetchPuppetsForStream`) and its two callbacks (`FetchSucceeded`
  and `FetchFailed`).
- **Colour fallback** (`user_colors.dfy`). A puppet mention uses the
  puppet's own colour when it is a non-empty string, otherwise the sender's
  stored colour, otherwise none.

`common.dfy` holds `Option`, `Result` and JavaScript/Python truthiness of an
optional string. `ordering.dfy` holds a "list a finite set in descending key
order" specification, which both listings use.

The listings read whole tables. They are ghost functions because turning a
map into a sequence needs a choice.

## Model

| member | source | states |
|---|---|---|
| StreamPuppets.PuppetTable.Register | zerver/actions/stream_puppets.py:7-40 | the table changes only under key (stream, name); a new key gets a fresh id and the given name, avatar, colour, `now` and creator; an existing key keeps its id and takes the given avatar, colour (even when absent), `last_used = now` and `created_by = sender`; ids stay unique |
| StreamPuppets.StreamOrder | zerver/actions/stream_puppets.py:45 | the stream's keys, each exactly once, in non-increasing `last_used` order |
| StreamPuppets.StreamPuppetList | zerver/actions/stream_puppets.py:43-54 | each entry is the id/name/avatar/colour projection of the stream's row of that name; every row of the stream appears; names are distinct; `last_used` is non-increasing |
| StreamPuppets.RegisteredPuppetListedFirst | zerver/actions/stream_puppets.py:19-54 | a puppet just registered at a time later than every other puppet of its stream heads that stream's listing |
| StreamPuppets.HandlerUserIds | zerver/tests/test_puppets.py:533-572 | a user is returned exactly when they handle one of the given puppets and are active |
| StreamPuppets.DeactivationHidesOnlyThatAccount | zerver/tests/test_puppets.py:566-572 | deactivating one account removes exactly that account from the handler ids; the handler rows are untouched |
| Personas.NormalizeHexColor | zerver/views/personas.py:18-25 | absent stays absent; a 4-character value becomes 7 characters, `#` then characters 1, 2 and 3 each doubled; any other length is returned unchanged |
| Personas.NormalizeIdempotent | zerver/views/personas.py:18-25 | normalising twice equals normalising once |
| Personas.NormalizeFixedPoints | zerver/views/personas.py:18-25 | a value is unchanged if and only if it is absent or not 4 characters long |
| Personas.NormalizeCanonical | zerver/views/personas.py:51-62 | every colour the create pattern accepts normalises to `#` and six hex digits |
| Personas.NormalizeExamples | zerver/tests/test_puppets.py:482-506 | `#F00` becomes `#FF0000`; six-digit colours and absence are kept |
| Personas.AvatarAndColorExamples | zerver/views/personas.py:47-54 | `http://…` and `red` are refused; `https://…`, `#FF5733` and `#F00` are accepted |
| Personas.CreatePersona | zerver/views/personas.py:37-71 | accepted if and only if the trimmed name has 1..max characters, the avatar is absent or an https URL of at most 500 characters with no white space, the colour is absent or `#` with 3 or 6 hex digits, and the bio is within its limit; on refusal, exactly the failing fields are reported; on acceptance the call gets the stripped name and bio, the avatar as given and the colour as `NormalizeHexColor` gives it, hence absent or in canonical six-digit form |
| Personas.CreateRejections | zerver/views/personas.py:41-58 | a field is reported exactly when it breaks its constraint; none is reported exactly when all pass |
| Personas.CreateArguments | zerver/views/personas.py:61-70 | the name and bio are stripped, the name within its limit; the avatar is passed as given; the colour is `NormalizeHexColor` of the given one, hence absent exactly when it was and otherwise in canonical six-digit form |
| Personas.UpdatePersona | zerver/views/personas.py:74-115 | refused if and only if a sent field breaks its pattern, with exactly the failing fields reported; "no changes" if and only if every field is absent; otherwise the shaped arguments of `UpdateArguments` are forwarded |
| Personas.UpdateRejections | zerver/views/personas.py:80-97 | a field is reported exactly when it is sent and breaks its constraint (the empty string is allowed for avatar and colour); none is reported exactly when every sent field passes |
| Personas.UpdateArguments | zerver/views/personas.py:104-113 | the name is sent exactly when it was given, and then stripped; the avatar is passed as given; an empty or absent colour is passed as is and a non-empty one as `NormalizeHexColor` gives it, in canonical six-digit form; a non-empty bio is stripped and an empty bio becomes absent |
| Text.PyStripAfterTrim | zerver/views/personas.py:41-66 | stripping with `str.strip()` after pydantic's whitespace trim gives the same as `str.strip()` alone |
| Text.PyStripIdempotent | zerver/views/personas.py:66 | `str.strip()` is idempotent |
| Text.Strip | zerver/views/personas.py:44 | the result is a contiguous slice of the input; what is removed on each side is all white space; neither end of the result is white space |
| Personas.RealmPersonaOrder | zerver/views/personas.py:138-146 | every active persona of an active user of the realm, each once, newest first |
| Personas.RealmPersonas | zerver/views/personas.py:129-163 | at most 200 entries, each the projection of a listed persona with its owner's full name; ids are distinct; newest first; an eligible persona is left out only when all 200 entries are at least as new |
| BotCommands.ValidCommandName | zerver/tests/test_bot_commands.py:213-256 | the chosen grammar `[a-z][a-z0-9_-]{0,31}`; every accepted name has 1 to 32 characters, does not start with a digit, and contains no space and no upper-case letter, which are the rules the tests check |
| BotCommands.CommandNameExamples | zerver/tests/test_bot_commands.py:213-256 | `1weather`, `my weather`, `Weather` and a 33-character name are refused; `my-weather_cmd` is accepted |
| BotCommands.CheckOptionsFrom | zerver/tests/test_bot_commands.py:258-327 | succeeds if and only if every option from position i on passes; otherwise it names the first failing option and the check it failed |
| BotCommands.ValidateOptions | zerver/tests/test_bot_commands.py:258-327 | succeeds if and only if every option has a non-empty name string and a known type and no two options share a name; an error points at an option that fails in the reported way, and every earlier option passes |
| BotCommands.OptionsExamples | zerver/tests/test_bot_commands.py:258-327 | missing name, missing type, unknown type and duplicate name are refused with the matching error; the two-option schema is accepted |
| BotCommands.FindCommand | zerver/tests/test_bot_commands.py:59-61 | returns the row with that realm and name when there is one, and nothing exactly when there is none |
| BotCommands.CommandTable.Register | zerver/tests/test_bot_commands.py:41-109 | a non-bot, a bad name or a bad schema is refused, in that order, with no change; a name owned by another bot is refused with no change; the owner's re-registration updates description and options in place, keeps the id counter, and reports `created = false`; a new name is created for the actor and reports `created = true`; (realm, name) stays unique |
| BotCommands.CommandTable.Delete | zerver/tests/test_bot_commands.py:111-174 | a missing id is "not found" for everyone; anyone but the owning bot or an administrator of the command's realm is denied and the row stays; otherwise exactly that row is removed |
| BotCommands.CommandTable.CommandsInRealm | zerver/tests/test_bot_commands.py:13-39 | exactly the realm's commands, no two with the same name |
| BotCommands.TakeoverIsRefused | zerver/tests/test_bot_commands.py:176-211 | a first registration creates row 0 with `created = true`; a second bot's registration of the same name is refused as "already registered by another bot", and the row keeps its owner and description; the owner's own re-registration reports `created = false` and updates the description |
| BotCommands.DeletionIsGuarded | zerver/tests/test_bot_commands.py:130-174 | a non-owner, non-admin delete is "permission denied" and the row stays; an unknown id is "not found"; an administrator's delete succeeds and the row is gone |
| PuppetCache.WithPuppet | web/src/stream_puppets.ts:71-82 | the list gains the puppet at the end exactly when no listed puppet has its name; the set of names becomes the old set plus that name; unique names stay unique |
| PuppetCache.WithPuppetIdempotent | web/src/stream_puppets.ts:71-82 | recording the same puppet twice equals recording it once |
| PuppetCache.StreamPuppetCache.PuppetsForStream | web/src/stream_puppets.ts:33-35 | the stream's cached list, or the empty list when none is cached |
| PuppetCache.StreamPuppetCache.HasFetchedPuppets | web/src/stream_puppets.ts:37-39 | true exactly when the stream is in the fetched set |
| PuppetCache.StreamPuppetCache.FetchPuppetsForStream | web/src/stream_puppets.ts:41-46 | a request is issued exactly when the stream is neither fetched nor pending, and then the stream becomes pending; nothing else changes |
| PuppetCache.StreamPuppetCache.FetchSucceeded | web/src/stream_puppets.ts:49-54 | the stream's list becomes the received list; the stream becomes fetched and stops being pending |
| PuppetCache.StreamPuppetCache.FetchFailed | web/src/stream_puppets.ts:55-61 | the stream's list becomes empty; the stream becomes fetched and stops being pending |
| PuppetCache.StreamPuppetCache.ClearCache | web/src/stream_puppets.ts:65-68 | every list is gone and no stream is fetched; the pending set is unchanged |
| PuppetCache.StreamPuppetCache.AddPuppetToCache | web/src/stream_puppets.ts:70-82 | only the given stream's list changes, by `WithPuppet`; fetched and pending are unchanged; unique names stay unique |
| PuppetCache.FetchIsIssuedOnce | web/src/stream_puppets.ts:41-68 | a fetch is issued the first time; a second fetch while it is pending issues nothing; after a failed answer the list is empty and no new request is issued; after clearing the cache a request is issued again |
| UserColors.GetUserColor | web/src/user_colors.ts:10-13 | a colour is returned exactly when the user is known and has one, and it is that user's stored colour |
| UserColors.GetPuppetColor | web/src/user_colors.ts:19-24 | a non-empty puppet colour wins; otherwise the sender's colour is used |
| UserColors.GetPuppetColorForSender | web/src/user_colors.ts:30-38 | the same priority rule, given only the puppet's colour |
| UserColors.PuppetColorAgrees | web/src/user_colors.ts:19-38 | both entry points choose the same colour for the same puppet and sender |
| UserColors.PuppetColorSource | web/src/user_colors.ts:10-38 | the result is the puppet's colour or the sender's stored colour; it is missing exactly when the puppet colour is empty or absent and the sender has none |
| UserColors.ColorExamples | web/src/user_colors.ts:30-38 | a puppet colour wins; an empty or absent one falls back to the sender's colour, which may be the empty string; an unknown sender gives none |

## Left out

- Time, storage and the network: `timezone_now()` is the `now` parameter, and both calls in `register_stream_puppet` read the same instant. The ORM is a map. The client's `channel.get` request and zod parsing become the two callback methods.
- Concurrency: transactional atomicity of `update_or_create` and racing registrations are not modelled; every registry is sequential.
- Re-registering a puppet: one might expect a re-registration to keep an omitted avatar and the original creator. The code does not: its `update_or_create` defaults overwrite avatar, colour and `created_by` on every call, even with an absent value. The model follows the code.
- StreamPuppets.HandlerUserIds: its implementation in zerver/actions/stream_puppets.py is not part of this model. It is modelled only as its test pins it, and its stream argument, whose role the test does not fix, is left out.
- Bot-command implementation: the view and model code are not part of this model. The registry is modelled from its tests. The tests do not fix these choices:
  - the check order (bot, name, options, ownership);
  - the full option-type list ({string, integer, boolean});
  - the treatment of an empty option name as missing;
  - the exact name grammar `[a-z][a-z0-9_-]{0,31}`. The tests fix only five names: `1weather`, `my weather`, `Weather` and a 33-character name are refused, and `my-weather_cmd` is accepted. Whether a name may start with `_` or `-` or use other characters is chosen, not tested;
  - that an owner's re-registration replaces the options along with the description, with an omitted options parameter passed as the empty list. The tests never send options on an update.
- Persona length limits and actions: `MAX_NAME_LENGTH` and `MAX_BIO_LENGTH` are not part of this model and are the `Limits` parameter. The persona actions (`do_create_persona`, `do_update_persona`, `do_delete_persona`, `do_get_personas`) are external: the model returns the arguments the view would pass. `get_personas` and `delete_persona` only delegate to them and have no model.
- Names made only of control separators: a name made only of U+001C..U+001F passes the trimmed-length check, because pydantic does not trim those characters, but `str.strip()` then forwards the empty string. The model states this behaviour as the code has it.
- Personas.CreatePersona, Personas.UpdatePersona: a refusal is abstracted to the set of fields that fail their constraint. The endpoint layer that produces the actual error response, which names a single parameter, is not part of this model, so which field the message names is not modelled.
- Pattern semantics: the pydantic pattern semantics assumed are Rust-regex ones (`\s` is Unicode White_Space, `$` is end of text). Length limits count code points.
- PuppetCache.StreamPuppetCache.AddPuppetToCache: the source pushes onto the cached array in place, so a list earlier returned by `get_puppets_for_stream` also changes. Lists are values here, and that aliasing is not captured.
- The message-send pipeline (puppet-mode and direct-message checks, sender projection, `@**Name**` mention rendering), migrations and `zerver/models/agents.py` are not part of this model.
