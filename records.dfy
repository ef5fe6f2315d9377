/**
  The records of lib/types.ts, the joined row the item list returns, and the
  shape of a handler's JSON reply. Timestamps are whole numbers (milliseconds);
  the source keeps them as ISO strings, which sort the same way.
 */
module Records {
  import opened Wrappers

  /** The two statuses an item is meant to have. */
  const InBox: string := "in_box"
  const OutOfBox: string := "out_of_box"

  /** A storage box. `label_text` is the `label` column (`label` is a Dafny keyword); `qr_code_path` is the column the views read, which lib/types.ts omits. */
  datatype Box = Box(
    id: int,
    user_id: string,
    box_number: int,
    label_text: Option<string>,
    description: Option<string>,
    location: string,
    image_path: Option<string>,
    qr_code_path: Option<string>,
    created_at: int)

  datatype Item = Item(
    id: int,
    user_id: string,
    name: string,
    description: Option<string>,
    box_id: int,
    category_id: Option<int>,
    status: string,
    quantity: int,
    image_path: Option<string>,
    date_added: int,
    last_updated: int,
    notes: Option<string>)

  /** A category. The table also holds its owner, which lib/types.ts leaves out. */
  datatype Category = Category(
    id: int,
    user_id: string,
    name: string,
    color: string,
    created_at: int)

  /**
    An item with the display fields of its box and its category flattened in;
    a field is `None` when the join found no row (or the column is null).
   */
  datatype ListedItem = ListedItem(
    item: Item,
    box_number: Option<int>,
    box_label: Option<string>,
    box_location: Option<string>,
    category_name: Option<string>,
    category_color: Option<string>)

  /** A handler's reply: a status code with either the body or `{ error }`. */
  datatype Reply<T> = Success(status: int, value: T) | Failure(status: int, error: string)
}
