/** The permissions a token may grant, and their canonical strings of the form
    `<context>.<subcontext>.<resource>:<action>`. */
module Permissions {

  datatype Permission = EcommerceBackofficeProductRead | EcommerceBackofficeProductCreate

  const ProductResource: string := "ecommerce.backoffice.product:"

  /** `Display`, the string looked up in a token's permission set. */
  function ToString(p: Permission): string {
    match p
    case EcommerceBackofficeProductRead => "ecommerce.backoffice.product:read"
    case EcommerceBackofficeProductCreate => "ecommerce.backoffice.product:create"
  }

  function Action(p: Permission): string {
    match p
    case EcommerceBackofficeProductRead => "read"
    case EcommerceBackofficeProductCreate => "create"
  }

  /** Both strings name the same resource and differ only in the action. */
  lemma ToStringShape(p: Permission)
    ensures ToString(p) == ProductResource + Action(p)
  {
  }

  lemma ToStringInjective(p: Permission, q: Permission)
    requires ToString(p) == ToString(q)
    ensures p == q
  {
  }
}
