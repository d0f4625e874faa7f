/**
 * The request and response records of the HTTP layer (src/orders/dto/order.dto.ts and
 * src/orders/dto/product.dto.ts), with their Portuguese field names. Only their data is
 * modelled; the documentation decorators carry no behaviour.
 */
module DtoTypes {
  import opened Wrappers

  datatype DimensoesDto = DimensoesDto(altura: int, largura: int, comprimento: int)

  datatype ProdutoDto = ProdutoDto(produto_id: string, dimensoes: DimensoesDto)

  datatype PedidoDto = PedidoDto(pedido_id: int, produtos: seq<ProdutoDto>)

  /** observacao is optional: None when the field is absent from the record. */
  datatype CaixaDto = CaixaDto(caixa_id: Option<string>, produtos: seq<string>, observacao: Option<string>)

  datatype PedidoEmbalagemDto = PedidoEmbalagemDto(pedido_id: int, caixas: seq<CaixaDto>)
}
