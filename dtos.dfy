/** The transfer objects bound to request and response bodies. A DTO of a
    response carries the id as a string; timestamps are kept as time points
    (their `dd-MM-yyyy HH:mm:ss` rendering is not modelled). */
module Dtos {
  import opened Wrappers
  import opened Entities

  datatype ProductDto = ProductDto(
    id: Option<string>,
    title: Option<string>,
    description: Option<string>,
    price: Option<Price>,
    isDeleted: bool,
    createdAt: Option<Timestamp>,
    modifiedAt: Option<Timestamp>)

  datatype CustomerDto = CustomerDto(
    id: Option<string>,
    title: Option<string>,
    isDeleted: bool,
    createdAt: Option<Timestamp>,
    modifiedAt: Option<Timestamp>,
    products: Option<seq<ProductDto>>)

  /** Partial update of a customer: a missing `title` is null, a missing
      `isDeleted` is false (a primitive boolean). */
  datatype UpdateCustomerDto = UpdateCustomerDto(title: Option<string>, isDeleted: bool)

  datatype UpdateProductDto = UpdateProductDto(
    title: Option<string>,
    description: Option<string>,
    price: Option<Price>,
    isDeleted: bool)
}
