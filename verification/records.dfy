/** The backend records the views share: inventory items and sales
    transactions.  Quantities are whole numbers; prices are exact reals. */
module Records {

  datatype InventoryItem = InventoryItem(
    itemName: string,
    sku: string,
    quantity: int,
    sellingPrice: real,
    reorderPoint: int)

  datatype Transaction = Transaction(
    transactionId: string,
    sku: string,
    itemName: string,
    quantity: int,
    customerName: string,
    paymentMethod: string,
    transactionDate: string,
    status: string,
    totalPrice: real)
}
