/** The output-name check done before the project page is opened. */
module FileName {

  const InvalidFileName := "Invalid file name."

  /** The regular-expression class `[a-zA-Z0-9_-]`. */
  predicate IsNameChar(c: char) {
    ('a' <= c <= 'z') || ('A' <= c <= 'Z') || ('0' <= c <= '9') || c == '_' || c == '-'
  }

  /** `/[^a-zA-Z0-9_-]/.test(name)`: some character of `name` lies outside the class. */
  function HasForbiddenChar(name: string): (b: bool)
    ensures b <==> exists i :: 0 <= i < |name| && !IsNameChar(name[i])
  {
    if name == [] then false
    else if !IsNameChar(name[0]) then true
    else
      var rest := HasForbiddenChar(name[1..]);
      assert forall i :: 0 < i < |name| ==> name[i] == name[1..][i - 1];
      rest
  }

  /**
   * The negation of `!jsonFileName || /[^a-zA-Z0-9_-]/.test(jsonFileName)`: the name is
   * non-empty and made of letters, digits, '_' and '-' only, so `name + ".json"` can
   * neither leave the working directory nor name a hidden file.
   */
  function ValidFileName(name: string): (ok: bool)
    ensures ok <==> |name| > 0 && forall i :: 0 <= i < |name| ==> IsNameChar(name[i])
    ensures ok ==> '/' !in name && '\\' !in name && '.' !in name
  {
    name != "" && !HasForbiddenChar(name)
  }
}
