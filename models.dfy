/**
 * The data shape of the ticket service: the stored ticket row and the
 * request body that creates one.  Nullable columns and optional request
 * fields are `Option<string>`.
 */
module Models {

  datatype Option<+T> = None | Some(value: T)

  /** The status every new ticket is stored with. */
  const Pengajuan: string := "Pengajuan"

  /** A row of the `tickets` table. */
  datatype Ticket = Ticket(
    id: int,
    nama: Option<string>,
    instansi: Option<string>,
    tanggalPengajuan: Option<string>,
    masalah: string,
    deskripsi: Option<string>,
    category: Option<string>,
    status: string,
    createdAt: int)

  /** The body of a create request: only `masalah` is required. */
  datatype TicketCreate = TicketCreate(
    nama: Option<string>,
    instansi: Option<string>,
    tanggalPengajuan: Option<string>,
    masalah: string,
    deskripsi: Option<string>,
    category: Option<string>)

  /** Python truthiness of an optional string: neither None nor "". */
  predicate Truthy(s: Option<string>)
  {
    s.Some? && s.value != ""
  }
}
