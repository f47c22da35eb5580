/** The Dameng database provider's parameter naming. */
module DamengProvider {
  import opened Wrappers

  /** The ArgumentNullException raised for a missing name. */
  datatype ArgumentNullError = NullOrEmptyName

  /**
   * CreateParameterName: a name that already starts with the placeholder's
   * first character is kept; any other non-empty name gets the placeholder
   * in front; an empty name is refused.
   */
  function CreateParameterName(placeholder: string, name: string): (r: Result<string, ArgumentNullError>)
    requires placeholder != ""
    ensures r.Err? <==> name == ""
    ensures r.Ok? ==> |r.value| >= |name| && r.value[|r.value| - |name|..] == name
    ensures r.Ok? ==> r.value[0] == placeholder[0]
    ensures r.Ok? ==> (r.value == name <==> name[0] == placeholder[0])
    ensures r.Ok? && name[0] != placeholder[0] ==> r.value == placeholder + name
  {
    if name == "" then Err(NullOrEmptyName)
    else if name[0] == placeholder[0] then Ok(name)
    else Ok(placeholder + name)
  }

  /** Naming a parameter name again leaves it as it is. */
  lemma CreateParameterNameIdempotent(placeholder: string, name: string)
    requires placeholder != "" && name != ""
    ensures CreateParameterName(placeholder, CreateParameterName(placeholder, name).value) == CreateParameterName(placeholder, name)
  {
  }
}
