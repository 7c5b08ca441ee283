/**
 * The static dataset of the routing backend (backend/grafo_data.c): the
 * vertex table, the directed edge table, the counts the file declares for
 * them and the two accessors that hand both out.
 *
 * The C file lists each table as one array initialiser; here each table is
 * the concatenation of its street-by-street blocks, in the file's order.
 */
module GrafoData {

  /** One entry of the vertex table (backend/grafo_db.h:7-15). */
  datatype VerticeData = VerticeData(
    id: int,
    nome: string,
    categoria: string,
    rua: string,
    tipo: int,
    x: int,
    y: int)

  /** One entry of the edge table (backend/grafo_db.h:17-22): a directed
      edge with its length in metres. */
  datatype ArestaData = ArestaData(origem: int, destino: int, distancia: int)

  /** `tipo` of a street corner and of a point of interest. */
  const TIPO_ESQUINA: int := 0
  const TIPO_PONTO: int := 1

  // street corners, ids 0-21 (tipo 0)
  const VerticesEsquinas: seq<VerticeData> := [
    VerticeData(0, "Esquina A", "Esquina", "N/A", 0, 23, 148),
    VerticeData(1, "Esquina B", "Esquina", "N/A", 0, 147, 146),
    VerticeData(2, "Esquina C", "Esquina", "N/A", 0, 268, 145),
    VerticeData(3, "Esquina D", "Esquina", "N/A", 0, 392, 144),
    VerticeData(4, "Esquina E", "Esquina", "N/A", 0, 26, 274),
    VerticeData(5, "Esquina F", "Esquina", "N/A", 0, 148, 272),
    VerticeData(6, "Esquina G", "Esquina", "N/A", 0, 271, 268),
    VerticeData(7, "Esquina H", "Esquina", "N/A", 0, 393, 269),
    VerticeData(8, "Esquina I", "Esquina", "N/A", 0, 29, 397),
    VerticeData(9, "Esquina J", "Esquina", "N/A", 0, 152, 396),
    VerticeData(10, "Esquina K", "Esquina", "N/A", 0, 270, 394),
    VerticeData(11, "Esquina L", "Esquina", "N/A", 0, 395, 393),
    VerticeData(12, "Esquina M", "Esquina", "N/A", 0, 32, 517),
    VerticeData(13, "Esquina N", "Esquina", "N/A", 0, 153, 519),
    VerticeData(14, "Esquina O", "Esquina", "N/A", 0, 271, 518),
    VerticeData(15, "Esquina P", "Esquina", "N/A", 0, 398, 518),
    VerticeData(16, "Esquina Q", "Esquina", "N/A", 0, 32, 641),
    VerticeData(17, "Esquina R", "Esquina", "N/A", 0, 155, 641),
    VerticeData(18, "Esquina S", "Esquina", "N/A", 0, 271, 642),
    VerticeData(19, "Esquina T", "Esquina", "N/A", 0, 400, 643),
    VerticeData(20, "Esquina U", "Esquina", "N/A", 0, 22, 26),
    VerticeData(21, "Esquina V", "Esquina", "N/A", 0, 144, 24)
  ]

  // R. 7 de Setembro, ids 22-26
  const VerticesRua7DeSetembro: seq<VerticeData> := [
    VerticeData(22, "Pastelaria Pasteten Platz", "Restaurante", "R. 7 de Setembro", 1, 194, 146),
    VerticeData(23, "BOTECO Spettu's Beer", "Bar", "R. 7 de Setembro", 1, 241, 145),
    VerticeData(24, "Conves", "Bar", "R. 7 de Setembro", 1, 257, 145),
    VerticeData(25, "Posto BR Mania Conveniência", "Posto de gasolina", "R. 7 de Setembro", 1, 279, 145),
    VerticeData(26, "Di Capri", "Restaurante", "R. 7 de Setembro", 1, 352, 144)
  ]

  // R. Borges de Medeiros, ids 27-38
  const VerticesRuaBorgesDeMedeiros: seq<VerticeData> := [
    VerticeData(27, "Barbudas", "Bar", "R. Borges de Medeiros", 1, 38, 274),
    VerticeData(28, "Holy Sheep Craft Brewery", "Bar", "R. Borges de Medeiros", 1, 69, 273),
    VerticeData(29, "Paragem Galeteria e Restaurante", "Restaurante", "R. Borges de Medeiros", 1, 175, 271),
    VerticeData(30, "Parque Infantil", "Entretenimento", "R. Borges de Medeiros", 1, 180, 271),
    VerticeData(31, "La Fiamma", "Restaurante", "R. Borges de Medeiros", 1, 191, 271),
    VerticeData(32, "Melina Cozinha & Vinho", "Restaurante", "R. Borges de Medeiros", 1, 223, 270),
    VerticeData(33, "Severo Garage", "Restaurante", "R. Borges de Medeiros", 1, 247, 269),
    VerticeData(34, "Santa Poke", "Restaurante", "R. Borges de Medeiros", 1, 314, 268),
    VerticeData(35, "Villa", "Restaurante", "R. Borges de Medeiros", 1, 322, 268),
    VerticeData(36, "Heilige", "Cervejaria", "R. Borges de Medeiros", 1, 330, 268),
    VerticeData(37, "Velasco", "Restaurante", "R. Borges de Medeiros", 1, 350, 269),
    VerticeData(38, "Pizzaria Fornalha", "Restaurante", "R. Borges de Medeiros", 1, 353, 269)
  ]

  // R. 28 de Setembro, ids 39-48
  const VerticesRua28DeSetembro: seq<VerticeData> := [
    VerticeData(39, "Barbados", "Barbearia", "R. 28 de Setembro", 1, 56, 397),
    VerticeData(40, "Sociedad", "Comércio", "R. 28 de Setembro", 1, 112, 396),
    VerticeData(41, "Minhagriffe", "Comércio", "R. 28 de Setembro", 1, 163, 396),
    VerticeData(42, "Dullius", "Moda e Vestuário", "R. 28 de Setembro", 1, 181, 396),
    VerticeData(43, "Visual Modas", "Moda e Vestuário", "R. 28 de Setembro", 1, 190, 395),
    VerticeData(44, "Armazém Kids", "Moda e Vestuário", "R. 28 de Setembro", 1, 236, 395),
    VerticeData(45, "Pattussi", "Moda e Vestuário", "R. 28 de Setembro", 1, 298, 394),
    VerticeData(46, "Dorinho", "Moda e Vestuário", "R. 28 de Setembro", 1, 306, 394),
    VerticeData(47, "Clip Graffite 1", "Papelaria", "R. 28 de Setembro", 1, 330, 394),
    VerticeData(48, "Colcci", "Moda e Vestuário", "R. 28 de Setembro", 1, 379, 393)
  ]

  // R. Júlio de Castilhos, ids 49-58
  const VerticesRuaJulioDeCastilhos: seq<VerticeData> := [
    VerticeData(49, "Clip Graffite 2", "Papelaria", "R. Júlio de Castilhos", 1, 67, 518),
    VerticeData(50, "Green Center", "Galeria", "R. Júlio de Castilhos", 1, 118, 518),
    VerticeData(51, "Vanusa", "Moda e Vestuário", "R. Júlio de Castilhos", 1, 164, 519),
    VerticeData(52, "Pioneira", "Moda e Vestuário", "R. Júlio de Castilhos", 1, 171, 519),
    VerticeData(53, "Galeria Farah", "Galeria", "R. Júlio de Castilhos", 1, 225, 518),
    VerticeData(54, "Le Chef", "Restaurante", "R. Júlio de Castilhos", 1, 329, 518),
    VerticeData(55, "Praça Getúlio Vargas 1", "Centro Histórico", "R. Júlio de Castilhos", 1, 332, 518),
    VerticeData(56, "Gang", "Moda e Vestuário", "R. Júlio de Castilhos", 1, 337, 518),
    VerticeData(57, "Caixa", "Banco", "R. Júlio de Castilhos", 1, 365, 518),
    VerticeData(58, "São João Farmácias 1", "Saúde", "R. Júlio de Castilhos", 1, 386, 518)
  ]

  // R. Ramiro Barcelos, ids 59-66
  const VerticesRuaRamiroBarcelos: seq<VerticeData> := [
    VerticeData(59, "Rodoil", "Posto de gasolina", "R. Ramiro Barcelos", 1, 99, 641),
    VerticeData(60, "Coma Bem", "Restaurante", "R. Ramiro Barcelos", 1, 123, 641),
    VerticeData(61, "Hotel Santa Cruz", "Hotel", "R. Ramiro Barcelos", 1, 169, 641),
    VerticeData(62, "Sicredi", "Banco", "R. Ramiro Barcelos", 1, 200, 641),
    VerticeData(63, "Bifão Grill", "Restaurante", "R. Ramiro Barcelos", 1, 208, 641),
    VerticeData(64, "Santander", "Banco", "R. Ramiro Barcelos", 1, 286, 642),
    VerticeData(65, "Catedral São João Batista", "Centro Histórico", "R. Ramiro Barcelos", 1, 325, 642),
    VerticeData(66, "Praça Getúlio Vargas 2", "Centro Histórico", "R. Ramiro Barcelos", 1, 333, 642)
  ]

  // R. Venâncio Aires, ids 67-69
  const VerticesRuaVenancioAires: seq<VerticeData> := [
    VerticeData(67, "Igreja Evangélica de Confissão Luterana", "Centro Histórico", "R. Venâncio Aires", 1, 23, 168),
    VerticeData(68, "Panvel Farmácias", "Saúde", "R. Venâncio Aires", 1, 29, 386),
    VerticeData(69, "Igreja Universal do Reino de Deus", "Centro Histórico", "R. Venâncio Aires", 1, 32, 598)
  ]

  // R. Tenente Coronel Brito, ids 70-80
  const VerticesRuaTenenteCoronelBrito: seq<VerticeData> := [
    VerticeData(70, "Praça da Bandeira", "Centro Histórico", "R. Tenente Coronel Brito", 1, 147, 207),
    VerticeData(71, "Flamula Sports Bar", "Restaurante", "R. Tenente Coronel Brito", 1, 148, 280),
    VerticeData(72, "Hotel Schulz", "Hotel", "R. Tenente Coronel Brito", 1, 149, 307),
    VerticeData(73, "Churrascaria Centenário", "Restaurante", "R. Tenente Coronel Brito", 1, 149, 312),
    VerticeData(74, "Brincasa", "Comércio", "R. Tenente Coronel Brito", 1, 151, 356),
    VerticeData(75, "Nacional", "Supermercado", "R. Tenente Coronel Brito", 1, 151, 364),
    VerticeData(76, "Kothe Esportes", "Moda e Vestuário", "R. Tenente Coronel Brito", 1, 152, 428),
    VerticeData(77, "Panificadora Jamaica", "Padaria", "R. Tenente Coronel Brito", 1, 153, 480),
    VerticeData(78, "São João Farmácias 2", "Saúde", "R. Tenente Coronel Brito", 1, 153, 538),
    VerticeData(79, "Bradesco", "Banco", "R. Tenente Coronel Brito", 1, 154, 593),
    VerticeData(80, "Lojas Becker", "Comércio", "R. Tenente Coronel Brito", 1, 155, 622)
  ]

  // R. Marechal Floriano, ids 81-104
  const VerticesRuaMarechalFloriano: seq<VerticeData> := [
    VerticeData(81, "Charrua Hotel", "Hotel", "R. Marechal Floriano", 1, 268, 161),
    VerticeData(82, "Dovino Adega", "Adega", "R. Marechal Floriano", 1, 269, 183),
    VerticeData(83, "Central", "Bar", "R. Marechal Floriano", 1, 270, 228),
    VerticeData(84, "Heilige Pocket", "Cervejaria", "R. Marechal Floriano", 1, 270, 244),
    VerticeData(85, "Iluminura Livraria e Cafeteria", "Cafeteria", "R. Marechal Floriano", 1, 271, 257),
    VerticeData(86, "Amsterdam Choperia Sunset", "Bar", "R. Marechal Floriano", 1, 271, 278),
    VerticeData(87, "Hering", "Comércio", "R. Marechal Floriano", 1, 271, 279),
    VerticeData(88, "Subway", "Restaurante", "R. Marechal Floriano", 1, 271, 288),
    VerticeData(89, "Sorveteria da Mônica", "Doces", "R. Marechal Floriano", 1, 271, 293),
    VerticeData(90, "Hbier Box", "Bar", "R. Marechal Floriano", 1, 271, 317),
    VerticeData(91, "Renner", "Moda e Vestuário", "R. Marechal Floriano", 1, 270, 338),
    VerticeData(92, "São João Farmácias 3", "Saúde", "R. Marechal Floriano", 1, 270, 383),
    VerticeData(93, "Prata", "Moda e Vestuário", "R. Marechal Floriano", 1, 270, 384),
    VerticeData(94, "oBoticario", "Comércio", "R. Marechal Floriano", 1, 270, 405),
    VerticeData(95, "Ultramed Farmácias", "Saúde", "R. Marechal Floriano", 1, 270, 407),
    VerticeData(96, "Casa do Papel", "Papelaria", "R. Marechal Floriano", 1, 270, 433),
    VerticeData(97, "Rosa Norte", "Moda e Vestuário", "R. Marechal Floriano", 1, 270, 449),
    VerticeData(98, "Magazine Luiza", "Comércio", "R. Marechal Floriano", 1, 270, 454),
    VerticeData(99, "Casas Bahia", "Comércio", "R. Marechal Floriano", 1, 271, 471),
    VerticeData(100, "Casa das Artes Regina Simonis", "Centro Histórico", "R. Marechal Floriano", 1, 271, 507),
    VerticeData(101, "Quiosque", "Restaurante", "R. Marechal Floriano", 1, 271, 547),
    VerticeData(102, "Monumento em homenagem às mães", "Centro Histórico", "R. Marechal Floriano", 1, 271, 587),
    VerticeData(103, "Pompéia", "Moda e Vestuário", "R. Marechal Floriano", 1, 271, 611),
    VerticeData(104, "Quero Quero", "Comércio", "R. Marechal Floriano", 1, 271, 631)
  ]

  // R. Marechal Deodoro, ids 105-118
  const VerticesRuaMarechalDeodoro: seq<VerticeData> := [
    VerticeData(105, "Minato Sushi", "Restaurante", "R. Marechal Deodoro", 1, 392, 155),
    VerticeData(106, "OCTO Sushi", "Restaurante", "R. Marechal Deodoro", 1, 392, 180),
    VerticeData(107, "Gatta di Latte Gelateria", "Doces", "R. Marechal Deodoro", 1, 392, 202),
    VerticeData(108, "Nàpule Pizzeria", "Restaurante", "R. Marechal Deodoro", 1, 393, 222),
    VerticeData(109, "Sr. Espetto Gastropub / Proeza Bier", "Restaurante", "R. Marechal Deodoro", 1, 393, 258),
    VerticeData(110, "Kopenhagen", "Doces", "R. Marechal Deodoro", 1, 394, 353),
    VerticeData(111, "Cheirin Bão", "Padaria", "R. Marechal Deodoro", 1, 395, 382),
    VerticeData(112, "Flavia Eliel Calçados e Acessórios", "Moda e Vestuário", "R. Marechal Deodoro", 1, 395, 404),
    VerticeData(113, "Dom Vito", "Moda e Vestuário", "R. Marechal Deodoro", 1, 396, 419),
    VerticeData(114, "McDonald's", "Comércio", "R. Marechal Deodoro", 1, 397, 458),
    VerticeData(115, "Banrisul", "Banco", "R. Marechal Deodoro", 1, 397, 460),
    VerticeData(116, "Droga Raia Farmácias", "Saúde", "R. Marechal Deodoro", 1, 398, 507),
    VerticeData(117, "Banco do Brasil", "Banco", "R. Marechal Deodoro", 1, 399, 568),
    VerticeData(118, "Estacionamento e lavagem Bunker Car", "Estacionamento", "R. Marechal Deodoro", 1, 399, 589)
  ]

  // R. Venâncio Aires, id 119
  const VerticesPracaHardyElmiroMartin: seq<VerticeData> := [
    VerticeData(119, "Praça Hardy Elmiro Martin", "Centro Histórico", "R. Venâncio Aires", 1, 23, 113)
  ]

  const VERTICES_STATIC: seq<VerticeData> :=
    VerticesEsquinas + VerticesRua7DeSetembro + VerticesRuaBorgesDeMedeiros + VerticesRua28DeSetembro +
    VerticesRuaJulioDeCastilhos + VerticesRuaRamiroBarcelos + VerticesRuaVenancioAires + VerticesRuaTenenteCoronelBrito +
    VerticesRuaMarechalFloriano + VerticesRuaMarechalDeodoro + VerticesPracaHardyElmiroMartin

  const VERTICES_STATIC_COUNT: int := 120

  // R. Tiradentes (U-V)
  const ArestasRuaTiradentes: seq<ArestaData> := [
    ArestaData(20, 21, 154)
  ]

  // R. 7 de Setembro (A-D)
  const ArestasRua7DeSetembro: seq<ArestaData> := [
    ArestaData(1, 0, 154), ArestaData(2, 24, 14), ArestaData(24, 23, 20), ArestaData(23, 22, 60),
    ArestaData(22, 1, 60), ArestaData(2, 25, 14), ArestaData(25, 26, 90), ArestaData(26, 3, 50),
    ArestaData(3, 26, 50), ArestaData(26, 25, 90), ArestaData(25, 2, 14)
  ]

  // R. Borges de Medeiros (E-H)
  const ArestasRuaBorgesDeMedeiros: seq<ArestaData> := [
    ArestaData(4, 27, 15), ArestaData(27, 28, 39), ArestaData(28, 5, 100), ArestaData(5, 29, 34),
    ArestaData(29, 30, 6), ArestaData(30, 31, 14), ArestaData(31, 32, 40), ArestaData(32, 33, 30),
    ArestaData(33, 6, 30), ArestaData(6, 34, 54), ArestaData(34, 35, 10), ArestaData(35, 36, 10),
    ArestaData(36, 37, 26), ArestaData(37, 38, 4), ArestaData(38, 7, 50)
  ]

  // R. 28 de Setembro (L-I)
  const ArestasRua28DeSetembro: seq<ArestaData> := [
    ArestaData(11, 48, 20), ArestaData(48, 47, 60), ArestaData(47, 46, 30), ArestaData(46, 45, 10),
    ArestaData(45, 10, 34), ArestaData(10, 44, 44), ArestaData(44, 43, 60), ArestaData(43, 42, 12),
    ArestaData(42, 41, 24), ArestaData(41, 9, 14), ArestaData(9, 40, 50), ArestaData(40, 39, 70),
    ArestaData(39, 8, 34)
  ]

  // Rua Júlio de Castilhos (M-P)
  const ArestasRuaJulioDeCastilhos: seq<ArestaData> := [
    ArestaData(12, 49, 44), ArestaData(49, 50, 66), ArestaData(50, 13, 44), ArestaData(13, 51, 14),
    ArestaData(51, 52, 10), ArestaData(52, 53, 70), ArestaData(53, 14, 60), ArestaData(14, 54, 70),
    ArestaData(54, 55, 4), ArestaData(55, 56, 6), ArestaData(56, 57, 34), ArestaData(57, 58, 26),
    ArestaData(58, 15, 14)
  ]

  // Rua Ramiro Barcelos (Q-T)
  const ArestasRuaRamiroBarcelos: seq<ArestaData> := [
    ArestaData(19, 66, 80), ArestaData(66, 65, 10), ArestaData(65, 64, 46), ArestaData(64, 18, 18),
    ArestaData(18, 63, 84), ArestaData(63, 62, 10), ArestaData(62, 61, 42), ArestaData(61, 17, 18),
    ArestaData(17, 60, 40), ArestaData(60, 59, 30), ArestaData(59, 16, 84)
  ]

  // Rua Venânacio Aires (Q-U)
  const ArestasRuaVenancioAires: seq<ArestaData> := [
    ArestaData(16, 69, 54), ArestaData(69, 12, 100), ArestaData(12, 8, 154), ArestaData(8, 68, 14),
    ArestaData(68, 4, 140), ArestaData(4, 67, 130), ArestaData(61, 0, 24), ArestaData(0, 119, 44),
    ArestaData(119, 20, 110)
  ]

  // Rua Tenente Coronel Brito (V-R)
  const ArestasRuaTenenteCoronelBrito: seq<ArestaData> := [
    ArestaData(21, 1, 154), ArestaData(1, 70, 74), ArestaData(70, 5, 80), ArestaData(5, 71, 10),
    ArestaData(71, 72, 34), ArestaData(72, 73, 6), ArestaData(73, 74, 54), ArestaData(74, 75, 10),
    ArestaData(75, 9, 40), ArestaData(9, 76, 40), ArestaData(76, 77, 65), ArestaData(77, 13, 49),
    ArestaData(13, 78, 24), ArestaData(78, 79, 70), ArestaData(79, 80, 36), ArestaData(80, 17, 24)
  ]

  // Rua Marechal Floriano (S-C)
  const ArestasRuaMarechalFloriano: seq<ArestaData> := [
    ArestaData(18, 104, 14), ArestaData(104, 103, 24), ArestaData(103, 102, 30), ArestaData(102, 101, 50),
    ArestaData(101, 14, 36), ArestaData(14, 100, 14), ArestaData(100, 99, 46), ArestaData(99, 98, 22),
    ArestaData(98, 97, 6), ArestaData(97, 96, 20), ArestaData(96, 95, 32), ArestaData(95, 94, 2),
    ArestaData(94, 10, 14), ArestaData(10, 93, 12), ArestaData(93, 92, 2), ArestaData(92, 91, 54),
    ArestaData(91, 90, 26), ArestaData(90, 89, 30), ArestaData(89, 88, 6), ArestaData(88, 87, 10),
    ArestaData(87, 86, 2), ArestaData(87, 6, 12), ArestaData(6, 85, 14), ArestaData(85, 84, 16),
    ArestaData(84, 83, 20), ArestaData(83, 82, 57), ArestaData(82, 81, 27), ArestaData(81, 2, 20)
  ]

  // Rua Marechal Deodoro (D-T)
  const ArestasRuaMarechalDeodoro: seq<ArestaData> := [
    ArestaData(3, 105, 14), ArestaData(105, 106, 30), ArestaData(106, 107, 28), ArestaData(107, 108, 24),
    ArestaData(108, 109, 44), ArestaData(109, 7, 14), ArestaData(7, 110, 104), ArestaData(110, 111, 36),
    ArestaData(111, 11, 14), ArestaData(11, 112, 14), ArestaData(112, 113, 18), ArestaData(113, 114, 48),
    ArestaData(114, 115, 2), ArestaData(115, 116, 58), ArestaData(116, 15, 14), ArestaData(15, 117, 62),
    ArestaData(117, 118, 26), ArestaData(118, 19, 66)
  ]

  const ARESTAS_STATIC: seq<ArestaData> :=
    ArestasRuaTiradentes + ArestasRua7DeSetembro + ArestasRuaBorgesDeMedeiros + ArestasRua28DeSetembro +
    ArestasRuaJulioDeCastilhos + ArestasRuaRamiroBarcelos + ArestasRuaVenancioAires +
    ArestasRuaTenenteCoronelBrito + ArestasRuaMarechalFloriano + ArestasRuaMarechalDeodoro

  /** The count the file declares for the edge table; the initialiser
      above has 135 entries. */
  const ARESTAS_STATIC_COUNT: int := 152

  /** `obter_vertices_static`: the vertex table and the count it reports. */
  function ObterVerticesStatic(): (r: (seq<VerticeData>, int))
    ensures r.0 == VERTICES_STATIC
    ensures r.1 == |r.0| == 120
  {
    (VERTICES_STATIC, VERTICES_STATIC_COUNT)
  }

  /** `obter_arestas_static`: the edge table and the count it reports, which
      is larger than the table, so a reader that trusts the count reads past
      the end of the array. */
  function ObterArestasStatic(): (r: (seq<ArestaData>, int))
    ensures r.0 == ARESTAS_STATIC
    ensures |r.0| == 135 && r.1 == 152 && r.1 > |r.0|
  {
    (ARESTAS_STATIC, ARESTAS_STATIC_COUNT)
  }

  /** The count `obter_arestas_static` evidently means to report: the number
      of entries in the initialiser. */
  function ObterArestasStaticCorrigido(): (r: (seq<ArestaData>, int))
    ensures r.0 == ARESTAS_STATIC
    ensures r.1 == |r.0| == 135
  {
    (ARESTAS_STATIC, |ARESTAS_STATIC|)
  }

  // ---------------------------------------------------------------------
  // Facts about the shipped tables

  predicate IdsAPartirDe(t: seq<VerticeData>, k: int) {
    forall i | 0 <= i < |t| :: t[i].id == k + i
  }

  predicate Esquina(v: VerticeData) {
    v.tipo == TIPO_ESQUINA && v.categoria == "Esquina" && v.rua == "N/A"
  }

  predicate PontoTuristico(v: VerticeData) {
    v.tipo == TIPO_PONTO && v.categoria != "Esquina"
  }

  predicate TodosPontos(t: seq<VerticeData>) {
    forall i | 0 <= i < |t| :: PontoTuristico(t[i])
  }

  /** The ids of each street block of the vertex table. */
  lemma IdsDosBlocos()
    ensures IdsAPartirDe(VerticesEsquinas, 0)
    ensures IdsAPartirDe(VerticesRua7DeSetembro, 22)
    ensures IdsAPartirDe(VerticesRuaBorgesDeMedeiros, 27)
    ensures IdsAPartirDe(VerticesRua28DeSetembro, 39)
    ensures IdsAPartirDe(VerticesRuaJulioDeCastilhos, 49)
    ensures IdsAPartirDe(VerticesRuaRamiroBarcelos, 59)
    ensures IdsAPartirDe(VerticesRuaVenancioAires, 67)
    ensures IdsAPartirDe(VerticesRuaTenenteCoronelBrito, 70)
    ensures IdsAPartirDe(VerticesRuaMarechalFloriano, 81)
    ensures IdsAPartirDe(VerticesRuaMarechalDeodoro, 105)
    ensures IdsAPartirDe(VerticesPracaHardyElmiroMartin, 119)
  {
    IdsPrimeirosBlocos();
    IdsUltimosBlocos();
  }

  lemma IdsPrimeirosBlocos()
    ensures IdsAPartirDe(VerticesEsquinas, 0)
    ensures IdsAPartirDe(VerticesRua7DeSetembro, 22)
    ensures IdsAPartirDe(VerticesRuaBorgesDeMedeiros, 27)
    ensures IdsAPartirDe(VerticesRua28DeSetembro, 39)
    ensures IdsAPartirDe(VerticesRuaJulioDeCastilhos, 49)
  {
  }

  lemma IdsUltimosBlocos()
    ensures IdsAPartirDe(VerticesRuaRamiroBarcelos, 59)
    ensures IdsAPartirDe(VerticesRuaVenancioAires, 67)
    ensures IdsAPartirDe(VerticesRuaTenenteCoronelBrito, 70)
    ensures IdsAPartirDe(VerticesRuaMarechalFloriano, 81)
    ensures IdsAPartirDe(VerticesRuaMarechalDeodoro, 105)
    ensures IdsAPartirDe(VerticesPracaHardyElmiroMartin, 119)
  {
  }

  /** The kind of vertex each street block of the vertex table holds. */
  lemma TiposDosBlocos()
    ensures forall i | 0 <= i < |VerticesEsquinas| :: Esquina(VerticesEsquinas[i])
    ensures TodosPontos(VerticesRua7DeSetembro)
    ensures TodosPontos(VerticesRuaBorgesDeMedeiros)
    ensures TodosPontos(VerticesRua28DeSetembro)
    ensures TodosPontos(VerticesRuaJulioDeCastilhos)
    ensures TodosPontos(VerticesRuaRamiroBarcelos)
    ensures TodosPontos(VerticesRuaVenancioAires)
    ensures TodosPontos(VerticesRuaTenenteCoronelBrito)
    ensures TodosPontos(VerticesRuaMarechalFloriano)
    ensures TodosPontos(VerticesRuaMarechalDeodoro)
    ensures TodosPontos(VerticesPracaHardyElmiroMartin)
  {
    TiposEsquinas();
    TiposRuasCentrais();
    TiposRuasDoMeio();
    TiposRuasCurtas();
    TiposMarechalFloriano();
    TiposUltimasRuas();
  }

  lemma TiposEsquinas()
    ensures forall i | 0 <= i < |VerticesEsquinas| :: Esquina(VerticesEsquinas[i])
  {
  }

  lemma TiposRuasCentrais()
    ensures TodosPontos(VerticesRua7DeSetembro)
    ensures TodosPontos(VerticesRuaBorgesDeMedeiros)
  {
  }

  lemma TiposRuasDoMeio()
    ensures TodosPontos(VerticesRua28DeSetembro)
    ensures TodosPontos(VerticesRuaJulioDeCastilhos)
  {
  }

  lemma TiposRuasCurtas()
    ensures TodosPontos(VerticesRuaRamiroBarcelos)
    ensures TodosPontos(VerticesRuaVenancioAires)
    ensures TodosPontos(VerticesRuaTenenteCoronelBrito)
  {
  }

  lemma TiposMarechalFloriano()
    ensures TodosPontos(VerticesRuaMarechalFloriano)
  {
  }

  lemma TiposUltimasRuas()
    ensures TodosPontos(VerticesRuaMarechalDeodoro)
    ensures TodosPontos(VerticesPracaHardyElmiroMartin)
  {
  }

  lemma {:induction false} Concatenar(a: seq<VerticeData>, b: seq<VerticeData>)
    requires IdsAPartirDe(a, 0) && IdsAPartirDe(b, |a|)
    requires |a| >= 22 && forall i | 22 <= i < |a| :: PontoTuristico(a[i])
    requires TodosPontos(b)
    ensures IdsAPartirDe(a + b, 0)
    ensures forall i | 22 <= i < |a + b| :: PontoTuristico((a + b)[i])
  {
  }

  /** Vertex ids are dense (entry i has id i), and the count the file declares
      is the number of entries. The first 22 entries are street corners (tipo
      0, category "Esquina", street "N/A"); every later entry is a point of
      interest (tipo 1) whose category is not "Esquina". */
  lemma VerticesEstaticos()
    ensures |VERTICES_STATIC| == VERTICES_STATIC_COUNT == 120
    ensures forall i | 0 <= i < |VERTICES_STATIC| :: VERTICES_STATIC[i].id == i
    ensures forall i | 0 <= i < 22 :: Esquina(VERTICES_STATIC[i])
    ensures forall i | 22 <= i < |VERTICES_STATIC| :: PontoTuristico(VERTICES_STATIC[i])
  {
    IdsDosBlocos();
    TiposDosBlocos();
    var prefixo := VerticesEsquinas + VerticesRua7DeSetembro;
    Concatenar(prefixo, VerticesRuaBorgesDeMedeiros);
    prefixo := prefixo + VerticesRuaBorgesDeMedeiros;
    Concatenar(prefixo, VerticesRua28DeSetembro);
    prefixo := prefixo + VerticesRua28DeSetembro;
    Concatenar(prefixo, VerticesRuaJulioDeCastilhos);
    prefixo := prefixo + VerticesRuaJulioDeCastilhos;
    Concatenar(prefixo, VerticesRuaRamiroBarcelos);
    prefixo := prefixo + VerticesRuaRamiroBarcelos;
    Concatenar(prefixo, VerticesRuaVenancioAires);
    prefixo := prefixo + VerticesRuaVenancioAires;
    Concatenar(prefixo, VerticesRuaTenenteCoronelBrito);
    prefixo := prefixo + VerticesRuaTenenteCoronelBrito;
    Concatenar(prefixo, VerticesRuaMarechalFloriano);
    prefixo := prefixo + VerticesRuaMarechalFloriano;
    Concatenar(prefixo, VerticesRuaMarechalDeodoro);
    prefixo := prefixo + VerticesRuaMarechalDeodoro;
    Concatenar(prefixo, VerticesPracaHardyElmiroMartin);
    prefixo := prefixo + VerticesPracaHardyElmiroMartin;
    assert prefixo == VERTICES_STATIC;
  }

  /** Both ends of an edge are vertex ids and its length is positive. */
  predicate ArestaValida(e: ArestaData) {
    0 <= e.origem < 120 && 0 <= e.destino < 120 && 1 <= e.distancia <= 154
  }

  predicate TodasValidas(t: seq<ArestaData>) {
    forall i | 0 <= i < |t| :: ArestaValida(t[i])
  }

  /** Every listed edge joins two existing ids and has a length in 1..154, so
      the weights Dijkstra sees are positive. */
  lemma ArestasValidas()
    ensures |ARESTAS_STATIC| == 135
    ensures TodasValidas(ARESTAS_STATIC)
  {
    PrimeirosBlocosValidos();
    UltimosBlocosValidos();
    var a := ArestasRuaTiradentes;
    ValidasJuntas(a, ArestasRua7DeSetembro);
    a := a + ArestasRua7DeSetembro;
    ValidasJuntas(a, ArestasRuaBorgesDeMedeiros);
    a := a + ArestasRuaBorgesDeMedeiros;
    ValidasJuntas(a, ArestasRua28DeSetembro);
    a := a + ArestasRua28DeSetembro;
    ValidasJuntas(a, ArestasRuaJulioDeCastilhos);
    a := a + ArestasRuaJulioDeCastilhos;
    ValidasJuntas(a, ArestasRuaRamiroBarcelos);
    a := a + ArestasRuaRamiroBarcelos;
    ValidasJuntas(a, ArestasRuaVenancioAires);
    a := a + ArestasRuaVenancioAires;
    ValidasJuntas(a, ArestasRuaTenenteCoronelBrito);
    a := a + ArestasRuaTenenteCoronelBrito;
    ValidasJuntas(a, ArestasRuaMarechalFloriano);
    a := a + ArestasRuaMarechalFloriano;
    ValidasJuntas(a, ArestasRuaMarechalDeodoro);
  }

  lemma ValidasJuntas(a: seq<ArestaData>, b: seq<ArestaData>)
    requires TodasValidas(a) && TodasValidas(b)
    ensures TodasValidas(a + b)
  {
    forall i | 0 <= i < |a + b| ensures ArestaValida((a + b)[i]) {
      if i >= |a| {
        assert (a + b)[i] == b[i - |a|];
      }
    }
  }

  lemma PrimeirosBlocosValidos()
    ensures TodasValidas(ArestasRuaTiradentes) && TodasValidas(ArestasRua7DeSetembro)
    ensures TodasValidas(ArestasRuaBorgesDeMedeiros) && TodasValidas(ArestasRua28DeSetembro)
    ensures TodasValidas(ArestasRuaJulioDeCastilhos)
  {
    assert TodasValidas(ArestasRuaTiradentes);
    assert TodasValidas(ArestasRua7DeSetembro);
    assert TodasValidas(ArestasRuaBorgesDeMedeiros);
    assert TodasValidas(ArestasRua28DeSetembro);
  }

  lemma UltimosBlocosValidos()
    ensures TodasValidas(ArestasRuaRamiroBarcelos) && TodasValidas(ArestasRuaVenancioAires)
    ensures TodasValidas(ArestasRuaTenenteCoronelBrito) && TodasValidas(ArestasRuaMarechalFloriano)
    ensures TodasValidas(ArestasRuaMarechalDeodoro)
  {
    assert TodasValidas(ArestasRuaRamiroBarcelos);
    assert TodasValidas(ArestasRuaVenancioAires);
    assert TodasValidas(ArestasRuaTenenteCoronelBrito);
    assert TodasValidas(ArestasRuaMarechalFloriano);
  }

  predicate SemSaidaDe(t: seq<ArestaData>, v: int) {
    forall i | 0 <= i < |t| :: t[i].origem != v
  }

  /** Vertices 67 and 86 are only ever destinations: no edge leaves them. */
  lemma SemArestasSaindo()
    ensures ARESTAS_STATIC[69] == ArestaData(4, 67, 130)
    ensures ARESTAS_STATIC[109] == ArestaData(87, 86, 2)
    ensures SemSaidaDe(ARESTAS_STATIC, 67) && SemSaidaDe(ARESTAS_STATIC, 86)
  {
    SemSaidaPrimeiros();
    SemSaidaUltimos();
    var a := ArestasRuaTiradentes;
    SemSaidaJuntas(a, ArestasRua7DeSetembro);
    a := a + ArestasRua7DeSetembro;
    SemSaidaJuntas(a, ArestasRuaBorgesDeMedeiros);
    a := a + ArestasRuaBorgesDeMedeiros;
    SemSaidaJuntas(a, ArestasRua28DeSetembro);
    a := a + ArestasRua28DeSetembro;
    SemSaidaJuntas(a, ArestasRuaJulioDeCastilhos);
    a := a + ArestasRuaJulioDeCastilhos;
    SemSaidaJuntas(a, ArestasRuaRamiroBarcelos);
    a := a + ArestasRuaRamiroBarcelos;
    SemSaidaJuntas(a, ArestasRuaVenancioAires);
    a := a + ArestasRuaVenancioAires;
    SemSaidaJuntas(a, ArestasRuaTenenteCoronelBrito);
    a := a + ArestasRuaTenenteCoronelBrito;
    SemSaidaJuntas(a, ArestasRuaMarechalFloriano);
    a := a + ArestasRuaMarechalFloriano;
    SemSaidaJuntas(a, ArestasRuaMarechalDeodoro);
  }

  lemma SemSaidaJuntas(a: seq<ArestaData>, b: seq<ArestaData>)
    requires SemSaidaDe(a, 67) && SemSaidaDe(a, 86) && SemSaidaDe(b, 67) && SemSaidaDe(b, 86)
    ensures SemSaidaDe(a + b, 67) && SemSaidaDe(a + b, 86)
  {
    forall i | |a| <= i < |a + b| ensures (a + b)[i] == b[i - |a|] {
    }
  }

  lemma SemSaidaPrimeiros()
    ensures SemSaidaDe(ArestasRuaTiradentes, 67) && SemSaidaDe(ArestasRuaTiradentes, 86)
    ensures SemSaidaDe(ArestasRua7DeSetembro, 67) && SemSaidaDe(ArestasRua7DeSetembro, 86)
    ensures SemSaidaDe(ArestasRuaBorgesDeMedeiros, 67) && SemSaidaDe(ArestasRuaBorgesDeMedeiros, 86)
    ensures SemSaidaDe(ArestasRua28DeSetembro, 67) && SemSaidaDe(ArestasRua28DeSetembro, 86)
    ensures SemSaidaDe(ArestasRuaJulioDeCastilhos, 67) && SemSaidaDe(ArestasRuaJulioDeCastilhos, 86)
  {
    assert SemSaidaDe(ArestasRuaTiradentes, 67) && SemSaidaDe(ArestasRuaTiradentes, 86);
    assert SemSaidaDe(ArestasRua7DeSetembro, 67) && SemSaidaDe(ArestasRua7DeSetembro, 86);
    assert SemSaidaDe(ArestasRuaBorgesDeMedeiros, 67) && SemSaidaDe(ArestasRuaBorgesDeMedeiros, 86);
    assert SemSaidaDe(ArestasRua28DeSetembro, 67) && SemSaidaDe(ArestasRua28DeSetembro, 86);
    assert SemSaidaDe(ArestasRuaJulioDeCastilhos, 67) && SemSaidaDe(ArestasRuaJulioDeCastilhos, 86);
  }

  lemma SemSaidaUltimos()
    ensures SemSaidaDe(ArestasRuaRamiroBarcelos, 67) && SemSaidaDe(ArestasRuaRamiroBarcelos, 86)
    ensures SemSaidaDe(ArestasRuaVenancioAires, 67) && SemSaidaDe(ArestasRuaVenancioAires, 86)
    ensures SemSaidaDe(ArestasRuaTenenteCoronelBrito, 67) && SemSaidaDe(ArestasRuaTenenteCoronelBrito, 86)
    ensures SemSaidaDe(ArestasRuaMarechalFloriano, 67) && SemSaidaDe(ArestasRuaMarechalFloriano, 86)
    ensures SemSaidaDe(ArestasRuaMarechalDeodoro, 67) && SemSaidaDe(ArestasRuaMarechalDeodoro, 86)
  {
    assert SemSaidaDe(ArestasRuaRamiroBarcelos, 67) && SemSaidaDe(ArestasRuaRamiroBarcelos, 86);
    assert SemSaidaDe(ArestasRuaVenancioAires, 67) && SemSaidaDe(ArestasRuaVenancioAires, 86);
    assert SemSaidaDe(ArestasRuaTenenteCoronelBrito, 67) && SemSaidaDe(ArestasRuaTenenteCoronelBrito, 86);
    assert SemSaidaDe(ArestasRuaMarechalFloriano, 67) && SemSaidaDe(ArestasRuaMarechalFloriano, 86);
    assert SemSaidaDe(ArestasRuaMarechalDeodoro, 67) && SemSaidaDe(ArestasRuaMarechalDeodoro, 86);
  }
}
