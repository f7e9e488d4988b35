/**
 * The organisation-scoped registry of bot slash commands, as its endpoint
 * tests pin it down (zerver/tests/test_bot_commands.py): the command-name
 * format, the options-schema check, first-writer-wins registration with a
 * `created` flag, deletion by the owning bot or a realm administrator, and
 * the realm-wide listing.
 */
module BotCommands {
  import opened Common

  type UserId = nat
  type RealmId = nat
  type CommandId = nat

  /** The acting account, as far as the registry cares. */
  datatype Account = Account(id: UserId, realm: RealmId, isBot: bool, isRealmAdmin: bool)

  // ---------------------------------------------------------------------
  // Command names

  const MaxCommandNameLength: nat := 32

  predicate IsLowerLetter(c: char)
  {
    'a' <= c <= 'z'
  }

  predicate IsCommandNameChar(c: char)
  {
    IsLowerLetter(c) || '0' <= c <= '9' || c == '-' || c == '_'
  }

  /**
   * `[a-z][a-z0-9_-]{0,31}`: the grammar is a modelling choice; the endpoint
   * tests require only that a leading digit, a space, an upper-case letter and
   * more than 32 characters are refused, which every accepted name respects.
   */
  predicate ValidCommandName(name: string)
    ensures ValidCommandName(name) ==>
      && 1 <= |name| <= MaxCommandNameLength
      && !('0' <= name[0] <= '9')
      && (forall i :: 0 <= i < |name| ==> name[i] != ' ' && !('A' <= name[i] <= 'Z'))
  {
    && 0 < |name| <= MaxCommandNameLength
    && IsLowerLetter(name[0])
    && forall i :: 0 <= i < |name| ==> IsCommandNameChar(name[i])
  }

  lemma CommandNameExamples()
    ensures !ValidCommandName("1weather")
    ensures !ValidCommandName("my weather")
    ensures !ValidCommandName("Weather")
    ensures !ValidCommandName(seq(33, _ => 'a'))
    ensures ValidCommandName("my-weather_cmd")
    ensures ValidCommandName("weather")
  {
    assert "my weather"[2] == ' ';
  }

  // ---------------------------------------------------------------------
  // Options schema

  /** A member of an option descriptor as decoded from JSON. */
  datatype Member = Missing | Str(s: string) | NonString

  /** One option descriptor: {name, type, description?, choices?}. */
  datatype OptionSpec = OptionSpec(name: Member, optionType: Member, description: Member, choices: Option<seq<string>>)

  const OptionTypes: set<string> := {"string", "integer", "boolean"}

  predicate HasNameString(o: OptionSpec)
  {
    o.name.Str? && o.name.s != ""
  }

  predicate HasValidType(o: OptionSpec)
  {
    o.optionType.Str? && o.optionType.s in OptionTypes
  }

  /** Some option before position `j` has the same name as option `j`. */
  predicate NameRepeated(opts: seq<OptionSpec>, j: nat)
    requires j < |opts|
  {
    exists k :: 0 <= k < j && opts[k].name == opts[j].name
  }

  predicate OptionOk(opts: seq<OptionSpec>, j: nat)
    requires j < |opts|
  {
    HasNameString(opts[j]) && HasValidType(opts[j]) && !NameRepeated(opts, j)
  }

  /** A well-formed schema: every option has a name string and a known type,
      and no two options share a name. */
  ghost predicate OptionsValid(opts: seq<OptionSpec>)
  {
    && (forall j :: 0 <= j < |opts| ==> HasNameString(opts[j]) && HasValidType(opts[j]))
    && (forall j, k :: 0 <= k < j < |opts| ==> opts[k].name != opts[j].name)
  }

  /** Which check the first offending option failed, and where it is. */
  datatype SchemaError = MissingName(index: nat) | InvalidType(index: nat) | DuplicateName(index: nat)
  {
    function Index(): nat
    {
      match this
      case MissingName(i) => i
      case InvalidType(i) => i
      case DuplicateName(i) => i
    }
  }

  /** `e` describes a failure of the option it points at. */
  predicate Describes(opts: seq<OptionSpec>, e: SchemaError)
  {
    e.Index() < |opts| &&
    match e
    case MissingName(j) => !HasNameString(opts[j])
    case InvalidType(j) => HasNameString(opts[j]) && !HasValidType(opts[j])
    case DuplicateName(j) => HasNameString(opts[j]) && HasValidType(opts[j]) && NameRepeated(opts, j)
  }

  /** Checks the options from position `i` on, in order, stopping at the first failure. */
  function CheckOptionsFrom(opts: seq<OptionSpec>, i: nat): (r: Result<(), SchemaError>)
    requires i <= |opts|
    ensures r.Ok? <==> forall j :: i <= j < |opts| ==> OptionOk(opts, j)
    ensures r.Err? ==>
      && i <= r.error.Index()
      && Describes(opts, r.error)
      && forall j :: i <= j < r.error.Index() ==> OptionOk(opts, j)
    decreases |opts| - i
  {
    if i == |opts| then Ok(())
    else if !HasNameString(opts[i]) then assert !OptionOk(opts, i); Err(MissingName(i))
    else if !HasValidType(opts[i]) then assert !OptionOk(opts, i); Err(InvalidType(i))
    else if NameRepeated(opts, i) then assert !OptionOk(opts, i); Err(DuplicateName(i))
    else CheckOptionsFrom(opts, i + 1)
  }

  /** The options-schema validator: accepts exactly the well-formed schemas and
      otherwise reports the first offending option. */
  function ValidateOptions(opts: seq<OptionSpec>): (r: Result<(), SchemaError>)
    ensures r.Ok? <==> OptionsValid(opts)
    ensures r.Err? ==> Describes(opts, r.error) && forall j :: 0 <= j < r.error.Index() ==> OptionOk(opts, j)
  {
    var r := CheckOptionsFrom(opts, 0);
    assert OptionsValid(opts) ==> forall j :: 0 <= j < |opts| ==> OptionOk(opts, j);
    assert (forall j :: 0 <= j < |opts| ==> OptionOk(opts, j)) ==> OptionsValid(opts) by {
      if forall j :: 0 <= j < |opts| ==> OptionOk(opts, j) {
        forall j | 0 <= j < |opts| ensures HasNameString(opts[j]) && HasValidType(opts[j]) {
          assert OptionOk(opts, j);
        }
        forall j, k | 0 <= k < j < |opts| ensures opts[k].name != opts[j].name {
          assert OptionOk(opts, j);
        }
      }
    }
    r
  }

  lemma OptionsExamples()
    ensures ValidateOptions([OptionSpec(Missing, Str("string"), Missing, None)]) == Err(MissingName(0))
    ensures ValidateOptions([OptionSpec(Str("location"), Missing, Missing, None)]) == Err(InvalidType(0))
    ensures ValidateOptions([OptionSpec(Str("location"), Str("invalid"), Missing, None)]) == Err(InvalidType(0))
    ensures ValidateOptions([OptionSpec(Str("location"), Str("string"), Missing, None),
                             OptionSpec(Str("location"), Str("integer"), Missing, None)]) == Err(DuplicateName(1))
    ensures ValidateOptions([OptionSpec(Str("location"), Str("string"), Str("City name"), None),
                             OptionSpec(Str("units"), Str("string"), Missing, Some(["celsius", "fahrenheit"]))]) == Ok(())
  {
    var dup := [OptionSpec(Str("location"), Str("string"), Missing, None),
                OptionSpec(Str("location"), Str("integer"), Missing, None)];
    assert NameRepeated(dup, 1) by { assert dup[0].name == dup[1].name; }
    var good := [OptionSpec(Str("location"), Str("string"), Str("City name"), None),
                 OptionSpec(Str("units"), Str("string"), Missing, Some(["celsius", "fahrenheit"]))];
    assert good[0].name != good[1].name;
  }

  // ---------------------------------------------------------------------
  // The command table

  /** A BotCommand row. */
  datatype BotCommand = BotCommand(
    realm: RealmId, name: string, botOwner: UserId, description: string, options: seq<OptionSpec>)

  datatype CommandError =
    | OnlyBotsCanRegister        // "Only bots can register commands"
    | InvalidCommandName         // "Invalid command name ..."
    | InvalidOptions(problem: SchemaError)
    | RegisteredByAnotherBot     // "Command '/<name>' is already registered by another bot"
    | CommandNotFound            // "Command not found"
    | PermissionDenied           // "Permission denied"

  /** (realm, name) identifies at most one row. */
  ghost predicate NamesUniquePerRealm(rows: map<CommandId, BotCommand>)
  {
    forall a, b :: a in rows && b in rows && rows[a].realm == rows[b].realm && rows[a].name == rows[b].name ==> a == b
  }

  /** The row registered under `name` in `realm`, if any. */
  function FindCommand(rows: map<CommandId, BotCommand>, realm: RealmId, name: string): (r: Option<CommandId>)
    requires NamesUniquePerRealm(rows)
    ensures r.Some? ==> r.value in rows && rows[r.value].realm == realm && rows[r.value].name == name
    ensures r.None? ==> forall id :: id in rows ==> !(rows[id].realm == realm && rows[id].name == name)
  {
    if exists id :: id in rows && rows[id].realm == realm && rows[id].name == name then
      var id :| id in rows && rows[id].realm == realm && rows[id].name == name;
      Some(id)
    else
      None
  }

  /** Deletion is allowed to the owning bot and to an administrator of the command's realm. */
  predicate MayDelete(actor: Account, cmd: BotCommand)
  {
    actor.id == cmd.botOwner || (actor.isRealmAdmin && actor.realm == cmd.realm)
  }

  class CommandTable {
    var rows: map<CommandId, BotCommand>
    var nextId: CommandId

    ghost predicate Valid()
      reads this
    {
      NamesUniquePerRealm(rows) && forall id :: id in rows ==> id < nextId
    }

    constructor ()
      ensures Valid() && rows == map[] && nextId == 0
    {
      rows := map[];
      nextId := 0;
    }

    /**
     * Registers `name` for the acting bot: non-bots, malformed names and
     * malformed schemas are refused without change; a name held by another
     * bot is refused without change; the owner's own name is updated in
     * place (created = false); a new name is created owned by the actor
     * (created = true).
     */
    method Register(actor: Account, name: string, description: string, options: seq<OptionSpec>)
      returns (r: Result<(CommandId, bool), CommandError>)
      requires Valid()
      modifies this
      ensures Valid()
      ensures !actor.isBot ==> r == Err(OnlyBotsCanRegister)
      ensures actor.isBot && !ValidCommandName(name) ==> r == Err(InvalidCommandName)
      ensures actor.isBot && ValidCommandName(name) && ValidateOptions(options).Err? ==>
        r == Err(InvalidOptions(ValidateOptions(options).error))
      ensures r.Err? ==> rows == old(rows) && nextId == old(nextId)
      ensures actor.isBot && ValidCommandName(name) && ValidateOptions(options).Ok? ==>
        match FindCommand(old(rows), actor.realm, name)
        case Some(id) =>
          if old(rows)[id].botOwner != actor.id then
            r == Err(RegisteredByAnotherBot)
          else
            && r == Ok((id, false))
            && rows == old(rows)[id := old(rows)[id].(description := description, options := options)]
            && nextId == old(nextId)
        case None =>
          && r == Ok((old(nextId), true))
          && rows == old(rows)[old(nextId) := BotCommand(actor.realm, name, actor.id, description, options)]
          && nextId == old(nextId) + 1
    {
      if !actor.isBot {
        return Err(OnlyBotsCanRegister);
      }
      if !ValidCommandName(name) {
        return Err(InvalidCommandName);
      }
      var check := ValidateOptions(options);
      if check.Err? {
        return Err(InvalidOptions(check.error));
      }
      var existing := FindCommand(rows, actor.realm, name);
      match existing {
        case Some(id) =>
          if rows[id].botOwner != actor.id {
            return Err(RegisteredByAnotherBot);
          }
          rows := rows[id := rows[id].(description := description, options := options)];
          r := Ok((id, false));
        case None =>
          rows := rows[nextId := BotCommand(actor.realm, name, actor.id, description, options)];
          r := Ok((nextId, true));
          nextId := nextId + 1;
      }
    }

    /**
     * Deletes command `id`: a missing id is "not found" whoever asks; an
     * actor who is neither the owning bot nor a realm administrator is
     * denied and the row stays.
     */
    method Delete(actor: Account, id: CommandId) returns (r: Result<(), CommandError>)
      requires Valid()
      modifies this
      ensures Valid() && nextId == old(nextId)
      ensures id !in old(rows) ==> r == Err(CommandNotFound) && rows == old(rows)
      ensures id in old(rows) && !MayDelete(actor, old(rows)[id]) ==> r == Err(PermissionDenied) && rows == old(rows)
      ensures id in old(rows) && MayDelete(actor, old(rows)[id]) ==> r == Ok(()) && rows == old(rows) - {id}
    {
      if id !in rows {
        return Err(CommandNotFound);
      }
      if !MayDelete(actor, rows[id]) {
        return Err(PermissionDenied);
      }
      rows := rows - {id};
      r := Ok(());
    }

    /** The commands of `realm`, visible to everyone in it; no two share a name. */
    function CommandsInRealm(realm: RealmId): (r: set<BotCommand>)
      reads this
      requires Valid()
      ensures forall c :: c in r ==> c.realm == realm && c in rows.Values
      ensures forall id :: id in rows && rows[id].realm == realm ==> rows[id] in r
      ensures forall c1, c2 :: c1 in r && c2 in r && c1.name == c2.name ==> c1 == c2
    {
      set id | id in rows && rows[id].realm == realm :: rows[id]
    }
  }

  /** Two bots register the same name: the first creates it, the second is
      refused, the first bot's row is untouched, and the first bot's own
      re-registration updates it in place. */
  method TakeoverIsRefused()
    returns (first: Result<(CommandId, bool), CommandError>, second: Result<(CommandId, bool), CommandError>,
             ownerAfterTakeover: UserId, descriptionAfterTakeover: string,
             again: Result<(CommandId, bool), CommandError>, descriptionAfterUpdate: string)
    ensures first == Ok((0, true))
    ensures second == Err(RegisteredByAnotherBot)
    ensures ownerAfterTakeover == 1 && descriptionAfterTakeover == "Get weather info"
    ensures again == Ok((0, false)) && descriptionAfterUpdate == "Get updated weather info"
  {
    var table := new CommandTable();
    var bot1 := Account(1, 7, true, false);
    var bot2 := Account(2, 7, true, false);
    CommandNameExamples();
    first := table.Register(bot1, "weather", "Get weather info", []);
    assert table.rows == map[0 := BotCommand(7, "weather", 1, "Get weather info", [])];
    var found := FindCommand(table.rows, 7, "weather");
    assert table.rows[0].realm == 7 && table.rows[0].name == "weather";
    assert found.Some? && found.value in table.rows;
    assert found == Some(0);
    second := table.Register(bot2, "weather", "My weather command", []);
    ownerAfterTakeover := table.rows[0].botOwner;
    descriptionAfterTakeover := table.rows[0].description;
    again := table.Register(bot1, "weather", "Get updated weather info", []);
    descriptionAfterUpdate := table.rows[0].description;
  }

  /** Only the owning bot or an administrator may delete; a missing id is not found. */
  method DeletionIsGuarded()
    returns (denied: Result<(), CommandError>, keptAfterDenial: bool,
             missing: Result<(), CommandError>,
             deleted: Result<(), CommandError>, keptAfterDeletion: bool)
    ensures denied == Err(PermissionDenied) && keptAfterDenial
    ensures missing == Err(CommandNotFound)
    ensures deleted == Ok(()) && !keptAfterDeletion
  {
    var table := new CommandTable();
    var bot := Account(1, 7, true, false);
    var other := Account(2, 7, false, false);
    var admin := Account(3, 7, false, true);
    CommandNameExamples();
    var reg := table.Register(bot, "weather", "Get weather info", []);
    denied := table.Delete(other, 0);
    keptAfterDenial := 0 in table.rows;
    missing := table.Delete(admin, 99999);
    deleted := table.Delete(admin, 0);
    keptAfterDeletion := 0 in table.rows;
  }
}
