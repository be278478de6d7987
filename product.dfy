/** The product entity: four fields, no validation. */
module ProductModel {
  import opened JavaInt

  /** A product as a value: what the stores keep, read and write. */
  datatype Product = Product(id: int32, name: string, quantity: int32, tag: string)

  /** The mutable product object handed around by the user interface: four
      fields, a getter and a setter for each, and no check on any value. */
  class ProductObject {
    var id: int32
    var name: string
    var quantity: int32
    var tag: string

    /** The current field values as a product value. */
    function Value(): Product
      reads this
    {
      Product(id, name, quantity, tag)
    }

    function GetId(): (r: int32)
      reads this
      ensures r == Value().id
    {
      id
    }

    function GetName(): (r: string)
      reads this
      ensures r == Value().name
    {
      name
    }

    function GetQuantity(): (r: int32)
      reads this
      ensures r == Value().quantity
    {
      quantity
    }

    function GetTag(): (r: string)
      reads this
      ensures r == Value().tag
    {
      tag
    }

    /** Any id, name, quantity (negative ones included) and tag is accepted. */
    constructor (id: int32, name: string, quantity: int32, tag: string)
      ensures GetId() == id && GetName() == name
      ensures GetQuantity() == quantity && GetTag() == tag
    {
      this.id := id;
      this.name := name;
      this.quantity := quantity;
      this.tag := tag;
    }

    method SetId(x: int32)
      modifies this
      ensures GetId() == x
      ensures Value() == old(Value()).(id := x)
    {
      id := x;
    }

    method SetName(s: string)
      modifies this
      ensures GetName() == s
      ensures Value() == old(Value()).(name := s)
    {
      name := s;
    }

    method SetQuantity(q: int32)
      modifies this
      ensures GetQuantity() == q
      ensures Value() == old(Value()).(quantity := q)
    {
      quantity := q;
    }

    method SetTag(t: string)
      modifies this
      ensures GetTag() == t
      ensures Value() == old(Value()).(tag := t)
    {
      tag := t;
    }
  }
}
