/**
 * Colours for rendering users and puppet mentions in the browser
 * (web/src/user_colors.ts). A puppet's own colour wins when it is a
 * non-empty string; otherwise the sender's effective colour is used, which
 * the server has already resolved and which may be absent.
 */
module UserColors {
  import opened Common
  import StreamPuppets
  import PuppetCache

  type UserId = StreamPuppets.UserId

  /** The part of a person record this module reads. */
  datatype Person = Person(color: Option<string>)

  /** The user's colour as stored on the person record; nothing for an
      unknown user or a user without one. An empty string is returned as is. */
  function GetUserColor(people: map<UserId, Person>, userId: UserId): (r: Option<string>)
    ensures r.Some? <==> userId in people && people[userId].color.Some?
    ensures r.Some? ==> r == people[userId].color
  {
    if userId in people then people[userId].color else None
  }

  /** The colour of a mention of `puppet` in a message from `senderId`. */
  function GetPuppetColor(puppet: PuppetCache.StreamPuppet, senderId: UserId, people: map<UserId, Person>): (r: Option<string>)
    ensures Truthy(puppet.color) ==> r == puppet.color
    ensures !Truthy(puppet.color) ==> r == GetUserColor(people, senderId)
  {
    if Truthy(puppet.color) then puppet.color else GetUserColor(people, senderId)
  }

  /** The same choice when only the puppet's colour (possibly missing) is known. */
  function GetPuppetColorForSender(puppetColor: Option<string>, senderId: UserId, people: map<UserId, Person>): (r: Option<string>)
    ensures Truthy(puppetColor) ==> r == puppetColor
    ensures !Truthy(puppetColor) ==> r == GetUserColor(people, senderId)
  {
    if Truthy(puppetColor) then puppetColor else GetUserColor(people, senderId)
  }

  /** Both entry points pick the same colour for the same puppet. */
  lemma PuppetColorAgrees(puppet: PuppetCache.StreamPuppet, senderId: UserId, people: map<UserId, Person>)
    ensures GetPuppetColor(puppet, senderId, people) == GetPuppetColorForSender(puppet.color, senderId, people)
  {
  }

  /**
   * Where a mention's colour comes from: it is the puppet's own colour or
   * the sender's, it is missing exactly when the puppet has no usable
   * colour and the sender has none, and a usable puppet colour is never
   * overridden by the sender's.
   */
  lemma {:induction false} PuppetColorSource(puppetColor: Option<string>, senderId: UserId, people: map<UserId, Person>)
    ensures var r := GetPuppetColorForSender(puppetColor, senderId, people);
      && (r.Some? ==> r == puppetColor || (senderId in people && r == people[senderId].color))
      && (r.None? <==> !Truthy(puppetColor) && (senderId !in people || people[senderId].color.None?))
      && (Truthy(puppetColor) ==> r == puppetColor)
  {
  }

  lemma ColorExamples()
    ensures GetPuppetColorForSender(Some("#ff0000"), 1, map[1 := Person(Some("#00ff00"))]) == Some("#ff0000")
    ensures GetPuppetColorForSender(Some(""), 1, map[1 := Person(Some("#00ff00"))]) == Some("#00ff00")
    ensures GetPuppetColorForSender(None, 1, map[1 := Person(Some("#00ff00"))]) == Some("#00ff00")
    ensures GetPuppetColorForSender(None, 2, map[1 := Person(Some("#00ff00"))]) == None
    ensures GetPuppetColorForSender(None, 1, map[1 := Person(Some(""))]) == Some("")
  {
  }
}
