/**
 * The security utility's read-only, type-checked lookups of the current
 * request's attributes. A request attribute holds an arbitrary object; only
 * the runtime types the lookups test for are distinguished.
 */
module SecurityUtil {
  import opened Common

  /** The runtime type of an attribute value, as far as the lookups care. */
  datatype AttrValue = LongValue(n: int) | StringValue(s: string) | OtherValue

  type Attributes = map<string, AttrValue>

  const UserIdAttribute: string := "userId"
  const UsernameAttribute: string := "username"

  /**
   * `getCurrentUserId`: the "userId" attribute of the current request when it
   * is a Long; null when there is no current request, no such attribute, or
   * a value of another type.
   */
  function CurrentUserId(request: Option<Attributes>): (r: Option<int>)
    ensures r.Some? <==>
      request.Some? && UserIdAttribute in request.value && request.value[UserIdAttribute].LongValue?
    ensures r.Some? ==> request.value[UserIdAttribute] == LongValue(r.value)
  {
    if request.Some? && UserIdAttribute in request.value && request.value[UserIdAttribute].LongValue?
    then Some(request.value[UserIdAttribute].n)
    else None
  }

  /** `getCurrentUsername`: the same rule for the "username" attribute and String. */
  function CurrentUsername(request: Option<Attributes>): (r: Option<string>)
    ensures r.Some? <==>
      request.Some? && UsernameAttribute in request.value && request.value[UsernameAttribute].StringValue?
    ensures r.Some? ==> request.value[UsernameAttribute] == StringValue(r.value)
  {
    if request.Some? && UsernameAttribute in request.value && request.value[UsernameAttribute].StringValue?
    then Some(request.value[UsernameAttribute].s)
    else None
  }

  /** `request.setAttribute(name, value)`: a null value removes the attribute. */
  function SetAttribute(attributes: Attributes, name: string, value: Option<AttrValue>): (r: Attributes)
    ensures value.None? ==> name !in r
    ensures value.Some? ==> name in r && r[name] == value.value
    ensures forall k | k != name :: (k in r <==> k in attributes) && (k in r ==> r[k] == attributes[k])
  {
    if value.None? then attributes - {name} else attributes[name := value.value]
  }

  /** What one lookup stored, the other reads back: each reads only its own attribute. */
  lemma LookupsAfterSet(attributes: Attributes, userId: Option<int>, username: string)
    ensures var a := SetAttribute(SetAttribute(attributes, UserIdAttribute, if userId.Some? then Some(LongValue(userId.value)) else None),
                                  UsernameAttribute, Some(StringValue(username)));
            && CurrentUserId(Some(a)) == userId
            && CurrentUsername(Some(a)) == Some(username)
  {
  }

  /** Without a current request both lookups give null. */
  lemma NoRequestNoUser()
    ensures CurrentUserId(None) == None && CurrentUsername(None) == None
  {
  }
}
