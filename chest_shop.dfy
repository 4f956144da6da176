/**
  `ChestShop`: one shop record. Its id, owner and location are final; the
  sold item, price, quantity, cached stock and display flag are updated in
  place by plain setters.
 */
module ChestShops {
  import opened Players
  import opened Locations
  import opened Items

  /** Every field of a shop at one moment, for stating what a setter leaves alone. */
  datatype ShopState = ShopState(
    id: Uuid,
    ownerUUID: Uuid,
    location: Location,
    soldItem: Descriptor,
    price: real,
    quantity: int,
    currentStock: int,
    displayEnabled: bool)

  class ChestShop {
    const id: Uuid
    const ownerUUID: Uuid
    const location: Location
    var soldItem: Descriptor
    var price: real
    var quantity: int
    var currentStock: int
    var displayEnabled: bool

    ghost function State(): ShopState
      reads this
    {
      ShopState(id, ownerUUID, location, soldItem, price, quantity, currentStock, displayEnabled)
    }

    /** A new shop stores its arguments and starts with no stock counted. */
    constructor (id: Uuid, ownerUUID: Uuid, location: Location, soldItem: Descriptor,
                 price: real, quantity: int, displayEnabled: bool)
      ensures State() == ShopState(id, ownerUUID, location, soldItem, price, quantity, 0, displayEnabled)
    {
      this.id := id;
      this.ownerUUID := ownerUUID;
      this.location := location;
      this.soldItem := soldItem;
      this.price := price;
      this.quantity := quantity;
      this.displayEnabled := displayEnabled;
      this.currentStock := 0;
    }

    method SetSoldItem(soldItem: Descriptor)
      modifies this
      ensures State() == old(State()).(soldItem := soldItem)
    {
      this.soldItem := soldItem;
    }

    method SetPrice(price: real)
      modifies this
      ensures State() == old(State()).(price := price)
    {
      this.price := price;
    }

    method SetQuantity(quantity: int)
      modifies this
      ensures State() == old(State()).(quantity := quantity)
    {
      this.quantity := quantity;
    }

    method SetCurrentStock(currentStock: int)
      modifies this
      ensures State() == old(State()).(currentStock := currentStock)
    {
      this.currentStock := currentStock;
    }

    method SetDisplayEnabled(displayEnabled: bool)
      modifies this
      ensures State() == old(State()).(displayEnabled := displayEnabled)
    {
      this.displayEnabled := displayEnabled;
    }
  }
}
