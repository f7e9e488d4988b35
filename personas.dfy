/**
 * Persona request shaping (zerver/views/personas.py): the colour normaliser,
 * the field constraints the create and update endpoints enforce before
 * delegating, the "nothing to change" short-circuit of update, and the
 * realm-wide persona listing used for mention typeahead. The persona
 * actions themselves (create, update, delete) are external: the model
 * returns the arguments the view hands them.
 */
module Personas {
  import opened Common
  import opened Text
  import Ordering

  // ---------------------------------------------------------------------
  // Colours

  predicate IsHexDigit(c: char)
  {
    '0' <= c <= '9' || 'a' <= c <= 'f' || 'A' <= c <= 'F'
  }

  /** `^#([0-9a-fA-F]{3}|[0-9a-fA-F]{6})$`: the colour accepted on create. */
  predicate IsHexColor(c: string)
  {
    (|c| == 4 || |c| == 7) && c[0] == '#' && forall i :: 1 <= i < |c| ==> IsHexDigit(c[i])
  }

  /** The canonical stored form: `#` and exactly six hex digits. */
  predicate IsSixDigitHexColor(c: string)
  {
    |c| == 7 && c[0] == '#' && forall i :: 1 <= i < |c| ==> IsHexDigit(c[i])
  }

  /**
   * normalize_hex_color: any 4-character string becomes `#` followed by its
   * characters 1, 2 and 3, each written twice; every other value, and the
   * absent colour, is returned unchanged.
   */
  function NormalizeHexColor(color: Option<string>): (r: Option<string>)
    ensures color.None? <==> r.None?
    ensures color.Some? && |color.value| == 4 ==>
      var c, n := color.value, r.value;
      && |n| == 7 && n[0] == '#'
      && n[1] == n[2] == c[1] && n[3] == n[4] == c[2] && n[5] == n[6] == c[3]
    ensures color.Some? && |color.value| != 4 ==> r == color
  {
    match color
    case None => None
    case Some(c) =>
      if |c| == 4 then Some(['#', c[1], c[1], c[2], c[2], c[3], c[3]]) else color
  }

  /** Normalising twice is normalising once. */
  lemma NormalizeIdempotent(color: Option<string>)
    ensures NormalizeHexColor(NormalizeHexColor(color)) == NormalizeHexColor(color)
  {
  }

  /** A colour is left unchanged exactly when it is absent or not 4 characters long. */
  lemma NormalizeFixedPoints(color: Option<string>)
    ensures NormalizeHexColor(color) == color <==> color.None? || |color.value| != 4
  {
    if color.Some? && |color.value| == 4 {
      assert |NormalizeHexColor(color).value| == 7;
    }
  }

  /** Every colour the create pattern accepts normalises to the canonical form. */
  lemma NormalizeCanonical(c: string)
    requires IsHexColor(c)
    ensures NormalizeHexColor(Some(c)).Some?
    ensures IsSixDigitHexColor(NormalizeHexColor(Some(c)).value)
  {
    var n := NormalizeHexColor(Some(c)).value;
    if |c| == 4 {
      assert IsHexDigit(c[1]) && IsHexDigit(c[2]) && IsHexDigit(c[3]);
      assert forall i :: 1 <= i < 7 ==> n[i] in {c[1], c[2], c[3]};
    }
  }

  lemma NormalizeExamples()
    ensures NormalizeHexColor(Some("#F00")) == Some("#FF0000")
    ensures NormalizeHexColor(Some("#AABBCC")) == Some("#AABBCC")
    ensures NormalizeHexColor(None) == None
  {
  }

  // ---------------------------------------------------------------------
  // Field constraints of the create and update endpoints

  const MaxAvatarUrlLength: nat := 500
  const HttpsPrefix: string := "https://"

  /** `^https://[^\s]+$` */
  predicate IsHttpsUrl(u: string)
  {
    |u| > |HttpsPrefix| && u[..|HttpsPrefix|] == HttpsPrefix
    && forall i :: |HttpsPrefix| <= i < |u| ==> !IsWhiteSpace(u[i])
  }

  /** The name and bio limits of the persona model, whose values lie outside this model. */
  datatype Limits = Limits(maxNameLength: nat, maxBioLength: nat)

  datatype PersonaField = NameField | AvatarUrlField | ColorField | BioField

  /** The name constraint: after trimming whitespace, 1 to maxNameLength characters. */
  predicate NameOk(name: string, limits: Limits)
  {
    1 <= |Trim(name)| <= limits.maxNameLength
  }

  predicate BioOk(bio: string, limits: Limits)
  {
    |bio| <= limits.maxBioLength
  }

  predicate CreateAvatarOk(u: string)
  {
    |u| <= MaxAvatarUrlLength && IsHttpsUrl(u)
  }

  /** `^(|https://[^\s]+)$`: update also accepts the empty string. */
  predicate UpdateAvatarOk(u: string)
  {
    |u| <= MaxAvatarUrlLength && (u == "" || IsHttpsUrl(u))
  }

  /** `^(|#([0-9a-fA-F]{3}|[0-9a-fA-F]{6}))$` */
  predicate UpdateColorOk(c: string)
  {
    c == "" || IsHexColor(c)
  }

  /** Parameters of create_persona, as received. */
  datatype CreateRequest = CreateRequest(name: string, avatarUrl: Option<string>, color: Option<string>, bio: string)

  /** Arguments handed to the persona-creation action. */
  datatype CreateCall = CreateCall(name: string, avatarUrl: Option<string>, color: Option<string>, bio: string)

  const AllFields: set<PersonaField> := {NameField, AvatarUrlField, ColorField, BioField}

  lemma AllFieldsComplete()
    ensures forall f: PersonaField :: f in AllFields
  {
    forall f: PersonaField ensures f in AllFields {
      if f.NameField? { assert f == NameField; }
      else if f.AvatarUrlField? { assert f == AvatarUrlField; }
      else if f.ColorField? { assert f == ColorField; }
      else { assert f == BioField; }
    }
  }

  /** Field `f` of a create request breaks its constraint. */
  predicate CreateFieldBad(req: CreateRequest, limits: Limits, f: PersonaField)
  {
    match f
    case NameField => !NameOk(req.name, limits)
    case AvatarUrlField => req.avatarUrl.Some? && !CreateAvatarOk(req.avatarUrl.value)
    case ColorField => req.color.Some? && !IsHexColor(req.color.value)
    case BioField => !BioOk(req.bio, limits)
  }

  /** The fields of a create request that break their constraint. */
  function CreateRejections(req: CreateRequest, limits: Limits): (r: set<PersonaField>)
    ensures forall f :: f in r <==> CreateFieldBad(req, limits, f)
    ensures r == {} <==> CreateFieldsOk(req, limits)
  {
    var r := set f | f in AllFields && CreateFieldBad(req, limits, f);
    AllFieldsComplete();
    assert !CreateFieldsOk(req, limits) ==> r != {} by {
      if !CreateFieldsOk(req, limits) {
        if !NameOk(req.name, limits) { assert NameField in r; }
        else if req.avatarUrl.Some? && !CreateAvatarOk(req.avatarUrl.value) { assert AvatarUrlField in r; }
        else if req.color.Some? && !IsHexColor(req.color.value) { assert ColorField in r; }
        else { assert BioField in r; }
      }
    }
    r
  }

  predicate CreateFieldsOk(req: CreateRequest, limits: Limits)
  {
    && NameOk(req.name, limits)
    && (req.avatarUrl.Some? ==> CreateAvatarOk(req.avatarUrl.value))
    && (req.color.Some? ==> IsHexColor(req.color.value))
    && BioOk(req.bio, limits)
  }

  /** The arguments create_persona hands on for a request whose fields all pass. */
  function CreateArguments(req: CreateRequest, limits: Limits): (c: CreateCall)
    requires CreateFieldsOk(req, limits)
    ensures c.name == PyStrip(req.name)
    ensures |c.name| <= limits.maxNameLength
    ensures c.avatarUrl == req.avatarUrl
    ensures c.color == NormalizeHexColor(req.color)
    ensures c.color.None? <==> req.color.None?
    ensures c.color.Some? ==> IsSixDigitHexColor(c.color.value)
    ensures c.bio == PyStrip(req.bio)
  {
    // the endpoint receives the trimmed name; the view strips it again
    var name := Trim(req.name);
    PyStripAfterTrim(req.name);
    assert req.color.Some? ==> IsSixDigitHexColor(NormalizeHexColor(req.color).value) by {
      if req.color.Some? { NormalizeCanonical(req.color.value); }
    }
    CreateCall(PyStrip(name), req.avatarUrl, NormalizeHexColor(req.color), PyStrip(req.bio))
  }

  /**
   * create_persona: reject the fields that break their constraint, otherwise
   * hand on the stripped name and bio, the avatar as given and the
   * normalised colour.
   */
  function CreatePersona(req: CreateRequest, limits: Limits): (r: Result<CreateCall, set<PersonaField>>)
    ensures r.Ok? <==>
      && NameOk(req.name, limits)
      && (req.avatarUrl.Some? ==> CreateAvatarOk(req.avatarUrl.value))
      && (req.color.Some? ==> IsHexColor(req.color.value))
      && BioOk(req.bio, limits)
    ensures r.Err? ==>
      && (NameField in r.error <==> !NameOk(req.name, limits))
      && (AvatarUrlField in r.error <==> req.avatarUrl.Some? && !CreateAvatarOk(req.avatarUrl.value))
      && (ColorField in r.error <==> req.color.Some? && !IsHexColor(req.color.value))
      && (BioField in r.error <==> !BioOk(req.bio, limits))
    ensures r.Ok? ==>
      && r.value.name == PyStrip(req.name)
      && |r.value.name| <= limits.maxNameLength
      && r.value.avatarUrl == req.avatarUrl
      && r.value.color == NormalizeHexColor(req.color)
      && (r.value.color.None? <==> req.color.None?)
      && (r.value.color.Some? ==> IsSixDigitHexColor(r.value.color.value))
      && r.value.bio == PyStrip(req.bio)
  {
    var rejected := CreateRejections(req, limits);
    if rejected != {} then Err(rejected) else Ok(CreateArguments(req, limits))
  }

  /** Parameters of update_persona, as received; absent means "not sent". */
  datatype UpdateRequest = UpdateRequest(
    personaId: nat, name: Option<string>, avatarUrl: Option<string>, color: Option<string>, bio: Option<string>)

  /** Arguments handed to the persona-update action. */
  datatype UpdateCall = UpdateCall(
    personaId: nat, name: Option<string>, avatarUrl: Option<string>, color: Option<string>, bio: Option<string>)

  datatype UpdateOutcome =
    | Rejected(fields: set<PersonaField>)
    | NoChanges                    // success without calling the update action
    | Forward(call: UpdateCall)

  predicate UpdateFieldsOk(req: UpdateRequest, limits: Limits)
  {
    && (req.name.Some? ==> NameOk(req.name.value, limits))
    && (req.avatarUrl.Some? ==> UpdateAvatarOk(req.avatarUrl.value))
    && (req.color.Some? ==> UpdateColorOk(req.color.value))
    && (req.bio.Some? ==> BioOk(req.bio.value, limits))
  }

  /** Field `f` of an update request is sent and breaks its constraint. */
  predicate UpdateFieldBad(req: UpdateRequest, limits: Limits, f: PersonaField)
  {
    match f
    case NameField => req.name.Some? && !NameOk(req.name.value, limits)
    case AvatarUrlField => req.avatarUrl.Some? && !UpdateAvatarOk(req.avatarUrl.value)
    case ColorField => req.color.Some? && !UpdateColorOk(req.color.value)
    case BioField => req.bio.Some? && !BioOk(req.bio.value, limits)
  }

  /** The fields of an update request that are sent and break their constraint. */
  function UpdateRejections(req: UpdateRequest, limits: Limits): (r: set<PersonaField>)
    ensures forall f :: f in r <==> UpdateFieldBad(req, limits, f)
    ensures r == {} <==> UpdateFieldsOk(req, limits)
  {
    var r := set f | f in AllFields && UpdateFieldBad(req, limits, f);
    AllFieldsComplete();
    assert !UpdateFieldsOk(req, limits) ==> r != {} by {
      if !UpdateFieldsOk(req, limits) {
        if req.name.Some? && !NameOk(req.name.value, limits) { assert NameField in r; }
        else if req.avatarUrl.Some? && !UpdateAvatarOk(req.avatarUrl.value) { assert AvatarUrlField in r; }
        else if req.color.Some? && !UpdateColorOk(req.color.value) { assert ColorField in r; }
        else { assert BioField in r; }
      }
    }
    r
  }

  /**
   * The arguments update_persona hands on for a request whose sent fields
   * all pass: a stripped name, the avatar as given, an empty colour as is
   * and a non-empty one normalised, a stripped bio and an empty bio as absent.
   */
  function UpdateArguments(req: UpdateRequest, limits: Limits): (c: UpdateCall)
    requires UpdateFieldsOk(req, limits)
    ensures c.personaId == req.personaId
    ensures c.name.Some? <==> req.name.Some?
    ensures req.name.Some? ==> c.name.value == PyStrip(req.name.value)
    ensures c.avatarUrl == req.avatarUrl
    ensures !Truthy(req.color) ==> c.color == req.color
    ensures Truthy(req.color) ==> c.color == NormalizeHexColor(req.color)
    ensures Truthy(req.color) ==> c.color.Some? && IsSixDigitHexColor(c.color.value)
    ensures Truthy(req.bio) ==> c.bio == Some(PyStrip(req.bio.value))
    ensures !Truthy(req.bio) ==> c.bio.None?
  {
    // the endpoint receives the trimmed name
    var name := if req.name.Some? then Some(Trim(req.name.value)) else None;
    var color := if Truthy(req.color) then NormalizeHexColor(req.color) else req.color;
    assert req.name.Some? ==> PyStrip(Trim(req.name.value)) == PyStrip(req.name.value) by {
      if req.name.Some? { PyStripAfterTrim(req.name.value); }
    }
    assert Truthy(req.color) ==> IsSixDigitHexColor(NormalizeHexColor(req.color).value) by {
      if Truthy(req.color) { NormalizeCanonical(req.color.value); }
    }
    UpdateCall(
      req.personaId,
      if Truthy(name) then Some(PyStrip(name.value)) else None,
      req.avatarUrl,
      color,
      if Truthy(req.bio) then Some(PyStrip(req.bio.value)) else None)
  }

  /**
   * update_persona: reject broken fields; with no field sent, succeed without
   * an update; otherwise forward the shaped arguments.
   */
  function UpdatePersona(req: UpdateRequest, limits: Limits): (r: UpdateOutcome)
    ensures r.Rejected? <==>
      || (req.name.Some? && !NameOk(req.name.value, limits))
      || (req.avatarUrl.Some? && !UpdateAvatarOk(req.avatarUrl.value))
      || (req.color.Some? && !UpdateColorOk(req.color.value))
      || (req.bio.Some? && !BioOk(req.bio.value, limits))
    ensures r.Rejected? ==>
      && (NameField in r.fields <==> req.name.Some? && !NameOk(req.name.value, limits))
      && (AvatarUrlField in r.fields <==> req.avatarUrl.Some? && !UpdateAvatarOk(req.avatarUrl.value))
      && (ColorField in r.fields <==> req.color.Some? && !UpdateColorOk(req.color.value))
      && (BioField in r.fields <==> req.bio.Some? && !BioOk(req.bio.value, limits))
    ensures r.NoChanges? <==> req.name.None? && req.avatarUrl.None? && req.color.None? && req.bio.None?
    ensures r.Forward? ==> UpdateFieldsOk(req, limits) && r.call == UpdateArguments(req, limits)
  {
    var rejected := UpdateRejections(req, limits);
    if rejected != {} then Rejected(rejected)
    else if req.name.None? && req.avatarUrl.None? && req.color.None? && req.bio.None? then NoChanges
    else Forward(UpdateArguments(req, limits))
  }

  lemma AvatarAndColorExamples()
    ensures !CreateAvatarOk("http://example.com/gandalf.png")
    ensures CreateAvatarOk("https://example.com/gandalf.png")
    ensures !IsHexColor("red")
    ensures IsHexColor("#FF5733") && IsHexColor("#F00")
  {
    assert "http://example.com/gandalf.png"[4] == ':';
    assert "https://example.com/gandalf.png"[..8] == HttpsPrefix;
  }

  // ---------------------------------------------------------------------
  // Realm persona listing

  type PersonaId = nat
  type UserId = nat
  type RealmId = nat

  datatype UserProfile = UserProfile(realm: RealmId, isActive: bool, fullName: string)

  datatype Persona = Persona(
    userId: UserId, name: string, avatarUrl: Option<string>, color: Option<string>,
    createdAt: int, isActive: bool)

  /** One typeahead entry: id, name, avatar_url, color, user_id, user_full_name. */
  datatype PersonaEntry = PersonaEntry(
    id: PersonaId, name: string, avatarUrl: Option<string>, color: Option<string>,
    userId: UserId, userFullName: string)

  const RealmPersonaLimit: nat := 200

  /** The filter of the listing: an active persona of an active user of `realm`. */
  predicate Listed(p: Persona, users: map<UserId, UserProfile>, realm: RealmId)
  {
    p.isActive && p.userId in users && users[p.userId].realm == realm && users[p.userId].isActive
  }

  /** The entry of persona `id`; the owner's full name comes from the joined user row. */
  function Entry(id: PersonaId, p: Persona, users: map<UserId, UserProfile>): PersonaEntry
  {
    PersonaEntry(id, p.name, p.avatarUrl, p.color, p.userId,
                 if p.userId in users then users[p.userId].fullName else "")
  }

  predicate ListsId(r: seq<PersonaEntry>, id: PersonaId)
  {
    exists i :: 0 <= i < |r| && r[i].id == id
  }

  /** The ids of every listed persona, each once, newest first. */
  ghost function RealmPersonaOrder(personas: map<PersonaId, Persona>, users: map<UserId, UserProfile>,
                                   realm: RealmId): (ids: seq<PersonaId>)
    ensures forall i :: 0 <= i < |ids| ==> ids[i] in personas && Listed(personas[ids[i]], users, realm)
    ensures forall id :: id in personas && Listed(personas[id], users, realm) ==> id in ids
    ensures forall i, j :: 0 <= i < j < |ids| ==> ids[i] != ids[j]
    ensures forall i, j :: 0 <= i < j < |ids| ==> personas[ids[i]].createdAt >= personas[ids[j]].createdAt
  {
    var eligible := set id | id in personas && Listed(personas[id], users, realm);
    var createdAt := (id: PersonaId) => if id in personas then personas[id].createdAt else 0;
    var order := Ordering.SortDesc(eligible, createdAt);
    assert forall i :: 0 <= i < |order| ==> order[i] in eligible;
    order
  }

  /**
   * get_realm_personas: at most 200 active personas of active users of the
   * caller's realm, newest first; a listed persona is left out only when the
   * 200 entries are all at least as new as it.
   */
  ghost function RealmPersonas(personas: map<PersonaId, Persona>, users: map<UserId, UserProfile>,
                               realm: RealmId): (r: seq<PersonaEntry>)
    ensures |r| <= RealmPersonaLimit
    ensures forall i :: 0 <= i < |r| ==>
      r[i].id in personas && Listed(personas[r[i].id], users, realm)
      && r[i] == Entry(r[i].id, personas[r[i].id], users)
    ensures forall i, j :: 0 <= i < j < |r| ==> r[i].id != r[j].id
    ensures forall i, j :: 0 <= i < j < |r| ==> personas[r[i].id].createdAt >= personas[r[j].id].createdAt
    ensures forall id :: id in personas && Listed(personas[id], users, realm) && !ListsId(r, id) ==>
      && |r| == RealmPersonaLimit
      && forall i :: 0 <= i < |r| ==> personas[r[i].id].createdAt >= personas[id].createdAt
  {
    RealmPersonaCutEntries(personas, users, realm);
    RealmPersonaCutOmissions(personas, users, realm);
    RealmPersonaCut(personas, users, realm)
  }

  /** The listing before its properties are established: order, cut, project. */
  ghost function RealmPersonaCut(personas: map<PersonaId, Persona>, users: map<UserId, UserProfile>,
                                 realm: RealmId): seq<PersonaEntry>
  {
    Entries(personas, users, Ordering.Take(RealmPersonaOrder(personas, users, realm), RealmPersonaLimit))
  }

  lemma RealmPersonaCutEntries(personas: map<PersonaId, Persona>, users: map<UserId, UserProfile>, realm: RealmId)
    ensures var r := RealmPersonaCut(personas, users, realm);
      && |r| <= RealmPersonaLimit
      && (forall i :: 0 <= i < |r| ==>
            r[i].id in personas && Listed(personas[r[i].id], users, realm)
            && r[i] == Entry(r[i].id, personas[r[i].id], users))
      && (forall i, j :: 0 <= i < j < |r| ==> r[i].id != r[j].id)
      && (forall i, j :: 0 <= i < j < |r| ==> personas[r[i].id].createdAt >= personas[r[j].id].createdAt)
  {
    var order := RealmPersonaOrder(personas, users, realm);
    var top := Ordering.Take(order, RealmPersonaLimit);
    assert forall i :: 0 <= i < |top| ==> top[i] == order[i];
    EntriesOfOrder(personas, users, realm, top, Entries(personas, users, top));
  }

  lemma RealmPersonaCutOmissions(personas: map<PersonaId, Persona>, users: map<UserId, UserProfile>, realm: RealmId)
    ensures var r := RealmPersonaCut(personas, users, realm);
      forall id :: id in personas && Listed(personas[id], users, realm) && !ListsId(r, id) ==>
        && |r| == RealmPersonaLimit
        && forall i :: 0 <= i < |r| ==> r[i].id in personas && personas[r[i].id].createdAt >= personas[id].createdAt
  {
    var order := RealmPersonaOrder(personas, users, realm);
    var top := Ordering.Take(order, RealmPersonaLimit);
    var r := Entries(personas, users, top);
    assert forall i :: 0 <= i < |top| ==> top[i] == order[i];
    assert forall i :: 0 <= i < |r| ==> r[i].id == top[i];
    OmittedOnlyWhenFull(personas, users, realm, order, top, r);
  }

  /** The entries of the personas `ids`, in the same order. */
  function Entries(personas: map<PersonaId, Persona>, users: map<UserId, UserProfile>,
                   ids: seq<PersonaId>): (r: seq<PersonaEntry>)
    requires forall i :: 0 <= i < |ids| ==> ids[i] in personas
    ensures |r| == |ids|
    ensures forall i :: 0 <= i < |ids| ==> r[i] == Entry(ids[i], personas[ids[i]], users)
  {
    if ids == [] then [] else [Entry(ids[0], personas[ids[0]], users)] + Entries(personas, users, ids[1..])
  }

  /** Projecting a duplicate-free, newest-first run of listed ids to entries
      keeps each entry tied to its persona and keeps the order. */
  lemma EntriesOfOrder(personas: map<PersonaId, Persona>, users: map<UserId, UserProfile>, realm: RealmId,
                       top: seq<PersonaId>, r: seq<PersonaEntry>)
    requires forall i :: 0 <= i < |top| ==>
      top[i] in personas && Listed(personas[top[i]], users, realm)
    requires forall i, j :: 0 <= i < j < |top| ==> top[i] != top[j]
    requires forall i, j :: 0 <= i < j < |top| ==> personas[top[i]].createdAt >= personas[top[j]].createdAt
    requires |r| == |top|
    requires forall i :: 0 <= i < |top| ==> r[i] == Entry(top[i], personas[top[i]], users)
    ensures forall i :: 0 <= i < |r| ==> r[i].id == top[i]
    ensures forall i :: 0 <= i < |r| ==>
      r[i].id in personas && Listed(personas[r[i].id], users, realm)
      && r[i] == Entry(r[i].id, personas[r[i].id], users)
    ensures forall i, j :: 0 <= i < j < |r| ==> r[i].id != r[j].id
    ensures forall i, j :: 0 <= i < j < |r| ==> personas[r[i].id].createdAt >= personas[r[j].id].createdAt
  {
  }

  /** Cutting a newest-first order after `RealmPersonaLimit` entries leaves out
      only ids no newer than every entry kept, and only when the cut is full. */
  lemma OmittedOnlyWhenFull(personas: map<PersonaId, Persona>, users: map<UserId, UserProfile>, realm: RealmId,
                            order: seq<PersonaId>, top: seq<PersonaId>, r: seq<PersonaEntry>)
    requires forall i :: 0 <= i < |order| ==> order[i] in personas
    requires forall id :: id in personas && Listed(personas[id], users, realm) ==> id in order
    requires forall i, j :: 0 <= i < j < |order| ==> personas[order[i]].createdAt >= personas[order[j]].createdAt
    requires top == Ordering.Take(order, RealmPersonaLimit)
    requires |r| == |top| && forall i :: 0 <= i < |r| ==> r[i].id == top[i]
    ensures forall id :: id in personas && Listed(personas[id], users, realm) && !ListsId(r, id) ==>
      && |r| == RealmPersonaLimit
      && forall i :: 0 <= i < |r| ==> r[i].id in personas && personas[r[i].id].createdAt >= personas[id].createdAt
  {
    forall id | id in personas && Listed(personas[id], users, realm) && !ListsId(r, id)
      ensures |r| == RealmPersonaLimit
      ensures forall i :: 0 <= i < |r| ==> r[i].id in personas && personas[r[i].id].createdAt >= personas[id].createdAt
    {
      var m :| 0 <= m < |order| && order[m] == id;
    }
  }
}
