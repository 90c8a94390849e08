/**
 * org.apache.catalina.session: the Session attribute container and the
 * process-wide SessionManager that holds sessions by id.
 */
module Sessions {
  import opened Wrappers

  /**
   * A session: an id fixed at construction and a mutable map from
   * attribute name to value (Java's `Object`, here the type parameter V).
   * The id is a string throughout; the Java class declares it as a UUID
   * but is constructed from a UUID's string form.
   */
  class Session<V> {
    const id: string
    var attributes: map<string, V>

    constructor (id: string)
      ensures GetId() == id
      ensures attributes == map[]
    {
      this.id := id;
      attributes := map[];
    }

    function GetId(): string
    {
      id
    }

    /** HashMap.get: the stored value, or None (Java's null) for an absent name. */
    function GetAttribute(name: string): (r: Option<V>)
      reads this
      ensures r.Some? <==> name in attributes
      ensures r.Some? ==> r.value == attributes[name]
    {
      if name in attributes then Some(attributes[name]) else None
    }

    /** HashMap.put: the new value replaces any earlier one under that name. */
    method SetAttribute(name: string, value: V)
      modifies this
      ensures attributes == old(attributes)[name := value]
      ensures GetAttribute(name) == Some(value)
      ensures forall other :: other != name ==> GetAttribute(other) == old(GetAttribute(other))
    {
      attributes := attributes[name := value];
    }

    /** HashMap.remove: the name becomes absent; removing an absent name changes nothing. */
    method RemoveAttribute(name: string)
      modifies this
      ensures attributes == old(attributes) - {name}
      ensures GetAttribute(name) == None
      ensures forall other :: other != name ==> GetAttribute(other) == old(GetAttribute(other))
      ensures name !in old(attributes) ==> attributes == old(attributes)
    {
      attributes := attributes - {name};
    }

    /** HashMap.clear: every name becomes absent; the id stays. */
    method Invalidate()
      modifies this
      ensures attributes == map[]
      ensures forall name :: GetAttribute(name) == None
      ensures old(attributes) == map[] ==> attributes == old(attributes)
    {
      attributes := map[];
    }
  }

  /** The attribute name under which a login stores the authenticated user. */
  const UserAttribute: string := "user"

  predicate HoldsUser<V(==)>(s: Session<V>, user: V)
    reads s
  {
    UserAttribute in s.attributes && s.attributes[UserAttribute] == user
  }

  /**
   * The process-wide session registry, as a map from id to session.
   * Its invariant: every session is filed under its own id, and no two
   * sessions carry the same user.
   */
  class SessionManager<V(==)> {
    var sessions: map<string, Session<V>>

    ghost predicate Valid()
      reads this, sessions.Values
    {
      && (forall id :: id in sessions ==> sessions[id].id == id)
      && (forall i, j ::
            i in sessions && j in sessions &&
            UserAttribute in sessions[i].attributes && UserAttribute in sessions[j].attributes &&
            sessions[i].attributes[UserAttribute] == sessions[j].attributes[UserAttribute]
            ==> i == j)
    }

    constructor ()
      ensures Valid()
      ensures sessions == map[]
    {
      sessions := map[];
    }

    /** findSession: the session filed under id, or None (Java's null). */
    function FindSession(id: string): (r: Option<Session<V>>)
      reads this
      ensures r.Some? <==> id in sessions
      ensures r.Some? ==> r.value == sessions[id]
    {
      if id in sessions then Some(sessions[id]) else None
    }

    /** add: files a session under its own id. */
    method Add(session: Session<V>)
      requires session.id !in sessions
      modifies this
      ensures sessions == old(sessions)[session.id := session]
    {
      sessions := sessions[session.id := session];
    }

    /** The id of the session carrying user, if any (unique under Valid()). */
    ghost function UserSession(user: V): (r: Option<string>)
      reads this, sessions.Values
      ensures r.Some? ==> r.value in sessions && HoldsUser(sessions[r.value], user)
      ensures r.None? ==> forall id :: id in sessions ==> !HoldsUser(sessions[id], user)
    {
      if exists id :: id in sessions && HoldsUser(sessions[id], user) then
        var id :| id in sessions && HoldsUser(sessions[id], user); Some(id)
      else
        None
    }

    /** findSessionId: the id of the session whose "user" attribute is user, or None. */
    method FindSessionId(user: V) returns (r: Option<string>)
      requires Valid()
      ensures r == UserSession(user)
      ensures r.Some? ==> r.value in sessions && HoldsUser(sessions[r.value], user)
    {
      if id :| id in sessions && HoldsUser(sessions[id], user) {
        r := Some(id);
      } else {
        r := None;
      }
    }
  }
}
