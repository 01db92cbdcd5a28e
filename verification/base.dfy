/**
 * The configuration methods every validator shares. Each returns a changed
 * copy (`_clone`) and leaves its receiver as it was; here that is simply a
 * new value.
 */
module Base {
  import opened Wrappers
  import opened Values
  import opened Config

  /** `optional()` */
  function Optional(v: Validator): (r: Validator)
    ensures r.optional && r.(optional := v.optional) == v
  {
    v.(optional := true)
  }

  /** `nullable()` */
  function Nullable(v: Validator): (r: Validator)
    ensures r.nullable && r.(nullable := v.nullable) == v
  {
    v.(nullable := true)
  }

  /** sift's `default(value)`: only the default changes; `optional` is left as it was. */
  function SiftDefault(v: Validator, d: Default): (r: Validator)
    ensures r.dflt == d && r.(dflt := v.dflt) == v
  {
    v.(dflt := d)
  }

  /** voltar's `default(value)`: sets the default and makes the copy optional. */
  function VoltarDefault(v: Validator, d: Default): (r: Validator)
    ensures r.dflt == d && r.optional
    ensures r.(dflt := v.dflt, optional := v.optional) == v
  {
    v.(dflt := d, optional := true)
  }

  /** `error(message)` */
  function WithError(v: Validator, message: string): (r: Validator)
    ensures r.custom == Some(message) && r.(custom := v.custom) == v
  {
    v.(custom := Some(message))
  }
}
